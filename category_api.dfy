/** The `/api/category` route: an authentication gate, then GET (list the
    caller's categories), POST (validate, reject case-insensitive duplicates,
    get-or-create the user, create the category) and DELETE (only an owned
    category without links), over the user and category tables. */
module CategoryApi {
  import opened Wrappers
  import opened Text

  // ---------------------------------------------------------------------------
  // Store, request and response
  // ---------------------------------------------------------------------------

  datatype User = User(id: string, email: string, name: Option<string>)

  /** A category row; `links` is the row's `_count.links`. */
  datatype Category = Category(id: string, name: string, userId: string, links: nat)

  datatype Db = Db(users: seq<User>, categories: seq<Category>)

  /** `session.user` as the session provider resolves it (a session without a
      user has neither field). */
  datatype Session = Session(email: Option<string>, name: Option<string>)

  /** A value read from the request: absent, a string, or another JSON value
      (an array of query values, a number, an object). */
  datatype Field = Missing | Str(s: string) | NonString

  /** `req.method` (the field is called `verb` because `method` is a Dafny
      keyword), `req.body.name` and `req.query.id`. */
  datatype Request = Request(verb: string, name: Field, id: Field)

  /** The `{ id, name, _count: { links } }` selection sent back to clients. */
  datatype CategoryView = CategoryView(id: string, name: string, links: nat)

  datatype Body = Message(text: string) | Listing(categories: seq<CategoryView>) | Created(category: CategoryView)

  datatype Response = Response(status: int, body: Body)

  /** The database calls the handler makes; a fault names the one that throws. */
  datatype DbStep = AtListCategories | AtFindDuplicate | AtFindUser | AtCreateUser | AtCreateCategory | AtFindOwned | AtDeleteCategory

  const MaxNameLength: nat := 50

  const Unauthorized: string := "Unauthorized"
  const InternalError: string := "Internal Server Error"
  const NotAllowed: string := "Method Not Allowed"
  const NameRequired: string := "Category name is required"
  const NameEmpty: string := "Category name cannot be empty"
  const NameTooLong: string := "Category name must be 50 characters or less"
  const AlreadyExists: string := "Category already exists"
  const IdRequired: string := "Category ID is required"
  const NotFound: string := "Category not found"
  const DeletedMessage: string := "Category deleted successfully"

  function HasLinksMessage(n: nat): string {
    "Cannot delete category with " + IntToString(n) + " links. Move or delete the links first."
  }

  function ServerError(): Response {
    Response(500, Message(InternalError))
  }

  // ---------------------------------------------------------------------------
  // Request checks
  // ---------------------------------------------------------------------------

  /** `!session || !session.user?.email` rejects; otherwise the caller's email. */
  function Authenticate(session: Option<Session>): Option<string> {
    if session.Some? && session.value.email.Some? && session.value.email.value != "" then session.value.email
    else None
  }

  /** The POST body's name: a non-empty string whose trimmed form is non-empty
      and at most 50 characters long; the accepted name is the trimmed one. */
  function ValidateName(f: Field): (r: Result<string>)
    ensures r.Ok? <==> f.Str? && !AllSpace(f.s) && |Trim(f.s)| <= MaxNameLength
    ensures r.Ok? ==> r.value == Trim(f.s) && 1 <= |r.value| <= MaxNameLength
    ensures (!f.Str? || f.s == "") ==> r == Err(NameRequired)
    ensures f.Str? && f.s != "" && AllSpace(f.s) ==> r == Err(NameEmpty)
    ensures f.Str? && |Trim(f.s)| > MaxNameLength ==> r == Err(NameTooLong)
  {
    if !f.Str? || f.s == "" then Err(NameRequired)
    else
      var t := Trim(f.s);
      TrimEmptyIffAllSpace(f.s);
      if |t| == 0 then Err(NameEmpty)
      else if |t| > MaxNameLength then Err(NameTooLong)
      else Ok(t)
  }

  /** The DELETE query's id: present, a single string, not empty. */
  predicate ValidId(f: Field) {
    f.Str? && f.s != ""
  }

  // ---------------------------------------------------------------------------
  // Queries over the store
  // ---------------------------------------------------------------------------

  /** `user.findUnique({ where: { email } })`. */
  function UserByEmail(users: seq<User>, email: string): (r: Option<User>)
    ensures r.Some? ==> r.value in users && r.value.email == email
    ensures r.None? ==> forall u :: u in users ==> u.email != email
  {
    if users == [] then None
    else if users[0].email == email then Some(users[0])
    else UserByEmail(users[1..], email)
  }

  /** The relation filter `user: { email }`: the category's user has that email. */
  predicate OwnedBy(users: seq<User>, c: Category, email: string) {
    exists u :: u in users && u.id == c.userId && u.email == email
  }

  function OwnedCategories(users: seq<User>, cats: seq<Category>, email: string): (r: seq<Category>)
    ensures forall c :: c in r <==> c in cats && OwnedBy(users, c, email)
  {
    if cats == [] then []
    else (if OwnedBy(users, cats[0], email) then [cats[0]] else []) + OwnedCategories(users, cats[1..], email)
  }

  function View(c: Category): CategoryView {
    CategoryView(c.id, c.name, c.links)
  }

  function Views(cs: seq<Category>): seq<CategoryView> {
    seq(|cs|, k requires 0 <= k < |cs| => View(cs[k]))
  }

  predicate SortedByName(vs: seq<CategoryView>) {
    forall i, j :: 0 <= i < j < |vs| ==> NameLe(vs[i].name, vs[j].name)
  }

  /** A view no later than every view of a sorted list may lead it. */
  lemma ConsSorted(h: CategoryView, vs: seq<CategoryView>)
    requires SortedByName(vs)
    requires forall x :: x in vs ==> NameLe(h.name, x.name)
    ensures SortedByName([h] + vs)
  {
    forall i, j | 0 <= i < j < |vs| + 1 ensures NameLe(([h] + vs)[i].name, ([h] + vs)[j].name) {
      assert ([h] + vs)[j] == vs[j - 1];
      if i > 0 {
        assert ([h] + vs)[i] == vs[i - 1];
      }
    }
  }

  /** The head of a sorted list is no later than any view after it. */
  lemma HeadFirst(vs: seq<CategoryView>)
    requires vs != [] && SortedByName(vs)
    ensures forall x :: x in vs[1..] ==> NameLe(vs[0].name, x.name)
  {
    forall x | x in vs[1..] ensures NameLe(vs[0].name, x.name) {
      var j :| 0 <= j < |vs[1..]| && vs[1..][j] == x;
      assert vs[j + 1] == x;
    }
  }

  /** A view no later than the head of a sorted list is no later than any of it. */
  lemma BeforeHead(v: CategoryView, vs: seq<CategoryView>)
    requires vs != [] && SortedByName(vs) && NameLe(v.name, vs[0].name)
    ensures forall x :: x in vs ==> NameLe(v.name, x.name)
  {
    forall x | x in vs ensures NameLe(v.name, x.name) {
      var j :| 0 <= j < |vs| && vs[j] == x;
      if j > 0 { NameLeTransitive(v.name, vs[0].name, vs[j].name); }
    }
  }

  /** A bound on every view of `vs` and on `v` bounds every view of a list
      that holds exactly those. */
  lemma BoundsPermutation(h: CategoryView, vs: seq<CategoryView>, v: CategoryView, rest: seq<CategoryView>)
    requires multiset(rest) == multiset(vs) + multiset{v}
    requires NameLe(h.name, v.name) && forall x :: x in vs ==> NameLe(h.name, x.name)
    ensures forall x :: x in rest ==> NameLe(h.name, x.name)
  {
    forall x | x in rest ensures NameLe(h.name, x.name) {
      assert x in multiset(rest);
      assert x in multiset(vs) || x == v;
    }
  }

  function InsertByName(v: CategoryView, vs: seq<CategoryView>): (r: seq<CategoryView>)
    requires SortedByName(vs)
    ensures SortedByName(r)
    ensures multiset(r) == multiset(vs) + multiset{v}
  {
    if vs == [] then [v]
    else if NameLe(v.name, vs[0].name) then
      BeforeHead(v, vs);
      ConsSorted(v, vs);
      [v] + vs
    else
      var rest := InsertByName(v, vs[1..]);
      NameLeTotal(v.name, vs[0].name);
      assert vs == [vs[0]] + vs[1..];
      HeadFirst(vs);
      BoundsPermutation(vs[0], vs[1..], v, rest);
      ConsSorted(vs[0], rest);
      [vs[0]] + rest
  }

  /** The database's `orderBy: { name: "asc" }`: a sorted permutation. */
  function SortByName(vs: seq<CategoryView>): (r: seq<CategoryView>)
    ensures SortedByName(r)
    ensures multiset(r) == multiset(vs)
  {
    if vs == [] then []
    else
      assert vs == [vs[0]] + vs[1..];
      InsertByName(vs[0], SortByName(vs[1..]))
  }

  /** GET's result: the caller's categories and nobody else's, each once, by name. */
  function ListFor(db: Db, email: string): (r: seq<CategoryView>)
    ensures SortedByName(r)
    ensures multiset(r) == multiset(Views(OwnedCategories(db.users, db.categories, email)))
  {
    SortByName(Views(OwnedCategories(db.users, db.categories, email)))
  }

  /** `category.findFirst` with a case-insensitive name match for the caller. */
  predicate HasDuplicate(db: Db, email: string, name: string) {
    exists c :: c in db.categories && OwnedBy(db.users, c, email) && SameIgnoringCase(c.name, name)
  }

  /** `category.findFirst({ where: { id, user: { email } } })`. */
  function FindOwned(cats: seq<Category>, users: seq<User>, email: string, id: string): (r: Option<Category>)
    ensures r.Some? ==> r.value in cats && r.value.id == id && OwnedBy(users, r.value, email)
    ensures r.None? ==> forall c :: c in cats && c.id == id ==> !OwnedBy(users, c, email)
  {
    if cats == [] then None
    else if cats[0].id == id && OwnedBy(users, cats[0], email) then Some(cats[0])
    else FindOwned(cats[1..], users, email, id)
  }

  /** `category.delete({ where: { id } })`. */
  function RemoveId(cats: seq<Category>, id: string): (r: seq<Category>)
    ensures forall c :: c in r <==> c in cats && c.id != id
    ensures |r| <= |cats|
  {
    if cats == [] then []
    else (if cats[0].id == id then [] else [cats[0]]) + RemoveId(cats[1..], id)
  }

  function MaxLength(ids: seq<string>): (n: nat)
    ensures forall s :: s in ids ==> |s| <= n
  {
    if ids == [] then 0
    else
      var rest := MaxLength(ids[1..]);
      assert forall s :: s in ids ==> s == ids[0] || s in ids[1..];
      if |ids[0]| > rest then |ids[0]| else rest
  }

  /** The database's generated identifier: one not in use. */
  function FreshId(ids: seq<string>): (r: string)
    ensures r !in ids
  {
    seq(MaxLength(ids) + 1, _ => 'c')
  }

  function UserIds(users: seq<User>): seq<string> {
    seq(|users|, k requires 0 <= k < |users| => users[k].id)
  }

  function CategoryIds(cats: seq<Category>): seq<string> {
    seq(|cats|, k requires 0 <= k < |cats| => cats[k].id)
  }

  /** The user record `user.create` makes: `name: session.user.name || null`. */
  function NewUser(users: seq<User>, email: string, name: Option<string>): User {
    User(FreshId(UserIds(users)), email, if name.Some? && name.value != "" then name else None)
  }

  // ---------------------------------------------------------------------------
  // The handler
  // ---------------------------------------------------------------------------

  function GetRoute(db: Db, email: string, fault: Option<DbStep>): Response {
    if fault == Some(AtListCategories) then ServerError()
    else Response(200, Listing(ListFor(db, email)))
  }

  /** Get-or-create of the caller's user record: the record and the user
      table after it. An existing record is used as it is; otherwise a new
      record with a fresh id is appended. */
  function GetOrCreateUser(users: seq<User>, email: string, name: Option<string>): (r: (User, seq<User>))
    ensures r.0 in r.1 && r.0.email == email
    ensures UserByEmail(users, email).Some? ==> r == (UserByEmail(users, email).value, users)
    ensures UserByEmail(users, email).None? ==> r.1 == users + [r.0] && r.0.id !in UserIds(users)
  {
    match UserByEmail(users, email)
    case Some(u) => (u, users)
    case None => var u := NewUser(users, email, name); (u, users + [u])
  }

  /** POST after its name and duplicate checks: get or create the user, then
      create the category. */
  function CreateRoute(db: Db, email: string, userName: Option<string>, trimmed: string, fault: Option<DbStep>): (r: (Response, Db))
    ensures r.0.status in {201, 500}
    ensures r.0.status != 201 ==> r.1.categories == db.categories
    ensures r.1.users == db.users || (|r.1.users| == |db.users| + 1 && r.1.users[..|db.users|] == db.users)
  {
    if fault == Some(AtFindUser) then (ServerError(), db)
    else if UserByEmail(db.users, email).None? && fault == Some(AtCreateUser) then (ServerError(), db)
    else
      var (owner, users) := GetOrCreateUser(db.users, email, userName);
      if fault == Some(AtCreateCategory) then (ServerError(), Db(users, db.categories))
      else
        var c := Category(FreshId(CategoryIds(db.categories)), trimmed, owner.id, 0);
        (Response(201, Created(View(c))), Db(users, db.categories + [c]))
  }

  function PostRoute(db: Db, email: string, userName: Option<string>, name: Field, fault: Option<DbStep>): (r: (Response, Db))
    ensures r.0.status in {201, 400, 409, 500}
    ensures r.0.status != 201 ==> r.1.categories == db.categories
    ensures r.1.users == db.users || (r.0.status in {201, 500} && |r.1.users| == |db.users| + 1 && r.1.users[..|db.users|] == db.users)
  {
    match ValidateName(name)
    case Err(m) => (Response(400, Message(m)), db)
    case Ok(trimmed) =>
      if fault == Some(AtFindDuplicate) then (ServerError(), db)
      else if HasDuplicate(db, email, trimmed) then (Response(409, Message(AlreadyExists)), db)
      else CreateRoute(db, email, userName, trimmed, fault)
  }

  function DeleteRoute(db: Db, email: string, id: Field, fault: Option<DbStep>): (r: (Response, Db))
    ensures r.0.status in {200, 400, 404, 500}
    ensures r.1.users == db.users
    ensures r.0.status != 200 ==> r.1 == db
  {
    if !ValidId(id) then (Response(400, Message(IdRequired)), db)
    else if fault == Some(AtFindOwned) then (ServerError(), db)
    else match FindOwned(db.categories, db.users, email, id.s)
      case None => (Response(404, Message(NotFound)), db)
      case Some(c) =>
        if c.links > 0 then (Response(400, Message(HasLinksMessage(c.links))), db)
        else if fault == Some(AtDeleteCategory) then (ServerError(), db)
        else (Response(200, Message(DeletedMessage)), Db(db.users, RemoveId(db.categories, id.s)))
  }

  /** One request, from the store before to the response and the store after.
      `fault` names the database call that throws, if any. Whatever the
      request: without an authenticated caller the answer is 401 and nothing
      changes; the category table changes only on a 200 or 201; the user
      table changes only by one appended user, and only on a 201 or a 500. */
  function Handler(db: Db, session: Option<Session>, req: Request, fault: Option<DbStep>): (r: (Response, Db))
    ensures Authenticate(session).None? ==> r == (Response(401, Message(Unauthorized)), db)
    ensures r.0.status in {200, 201, 400, 401, 404, 405, 409, 500}
    ensures r.0.status !in {200, 201} ==> r.1.categories == db.categories
    ensures r.1.users == db.users || (r.0.status in {201, 500} && |r.1.users| == |db.users| + 1 && r.1.users[..|db.users|] == db.users)
    ensures req.verb !in {"GET", "POST", "DELETE"} && Authenticate(session).Some? ==> r == (Response(405, Message(NotAllowed)), db)
  {
    match Authenticate(session)
    case None => (Response(401, Message(Unauthorized)), db)
    case Some(email) =>
      if req.verb == "GET" then (GetRoute(db, email, fault), db)
      else if req.verb == "POST" then PostRoute(db, email, session.value.name, req.name, fault)
      else if req.verb == "DELETE" then DeleteRoute(db, email, req.id, fault)
      else (Response(405, Message(NotAllowed)), db)
  }

  // ---------------------------------------------------------------------------
  // Store invariant
  // ---------------------------------------------------------------------------

  predicate UniqueIds(cats: seq<Category>) {
    forall i, j :: 0 <= i < j < |cats| ==> cats[i].id != cats[j].id
  }

  /** What the tables keep across requests: user ids and emails are unique,
      category ids are unique, every category belongs to a stored user, and no
      user has two categories whose names match case-insensitively. */
  ghost predicate Consistent(db: Db) {
    && (forall i, j :: 0 <= i < j < |db.users| ==> db.users[i].id != db.users[j].id)
    && (forall i, j :: 0 <= i < j < |db.users| ==> db.users[i].email != db.users[j].email)
    && UniqueIds(db.categories)
    && (forall c :: c in db.categories ==> exists u :: u in db.users && u.id == c.userId)
    && (forall a, b :: a in db.categories && b in db.categories && a.id != b.id && a.userId == b.userId ==>
          !SameIgnoringCase(a.name, b.name))
  }

  lemma {:induction false} RemoveIdKeepsUniqueIds(cats: seq<Category>, id: string)
    requires UniqueIds(cats)
    ensures UniqueIds(RemoveId(cats, id))
  {
    if cats != [] {
      var rest := RemoveId(cats[1..], id);
      RemoveIdKeepsUniqueIds(cats[1..], id);
      if cats[0].id != id {
        forall c | c in rest ensures c.id != cats[0].id {
          var j :| 0 <= j < |cats[1..]| && cats[1..][j] == c;
          assert cats[j + 1] == c;
        }
        var r := [cats[0]] + rest;
        forall i, j | 0 <= i < j < |r| ensures r[i].id != r[j].id {
          if i > 0 { assert r[i] == rest[i - 1] && r[j] == rest[j - 1]; }
          else { assert r[j] == rest[j - 1] && r[j] in rest; }
        }
      }
    }
  }

  /** With unique ids, deleting by the id of the row at `k` removes that row
      and nothing else. */
  lemma {:induction false} RemoveIdExactlyOne(cats: seq<Category>, k: nat)
    requires UniqueIds(cats) && k < |cats|
    ensures RemoveId(cats, cats[k].id) == cats[..k] + cats[k + 1..]
  {
    var id := cats[k].id;
    if k == 0 {
      RemoveIdAbsent(cats[1..], id);
    } else {
      RemoveIdExactlyOne(cats[1..], k - 1);
      assert cats[1..][k - 1] == cats[k];
      assert cats[..k] + cats[k + 1..] == [cats[0]] + (cats[1..][..k - 1] + cats[1..][k..]);
    }
  }

  lemma {:induction false} RemoveIdAbsent(cats: seq<Category>, id: string)
    requires forall c :: c in cats ==> c.id != id
    ensures RemoveId(cats, id) == cats
  {
    if cats != [] {
      RemoveIdAbsent(cats[1..], id);
      assert cats == [cats[0]] + cats[1..];
    }
  }

  lemma AppendUserKeepsConsistent(db: Db, u: User)
    requires Consistent(db)
    requires u.id !in UserIds(db.users)
    requires forall v :: v in db.users ==> v.email != u.email
    ensures Consistent(Db(db.users + [u], db.categories))
  {
    var users := db.users + [u];
    forall i, j | 0 <= i < j < |users| ensures users[i].id != users[j].id && users[i].email != users[j].email {
      if j == |db.users| {
        assert users[i] == db.users[i] && UserIds(db.users)[i] == db.users[i].id;
      }
    }
    forall c | c in db.categories ensures exists v :: v in users && v.id == c.userId {
      var v :| v in db.users && v.id == c.userId;
      assert v in users;
    }
  }

  lemma AppendCategoryKeepsConsistent(db: Db, c: Category)
    requires Consistent(db)
    requires c.id !in CategoryIds(db.categories)
    requires exists u :: u in db.users && u.id == c.userId
    requires forall a :: a in db.categories && a.userId == c.userId ==> !SameIgnoringCase(a.name, c.name)
    ensures Consistent(Db(db.users, db.categories + [c]))
  {
    var cats := db.categories + [c];
    forall i, j | 0 <= i < j < |cats| ensures cats[i].id != cats[j].id {
      if j == |db.categories| {
        assert cats[i] == db.categories[i] && CategoryIds(db.categories)[i] == db.categories[i].id;
      }
    }
  }

  /** Every request keeps the store consistent; in particular a created name
      never matches, case-insensitively, another category of the same user. */
  lemma HandlerKeepsConsistent(db: Db, session: Option<Session>, req: Request, fault: Option<DbStep>)
    requires Consistent(db)
    ensures Consistent(Handler(db, session, req, fault).1)
  {
    var auth := Authenticate(session);
    if auth.Some? && req.verb == "POST" {
      PostKeepsConsistent(db, auth.value, session.value.name, req.name, fault);
    } else if auth.Some? && req.verb == "DELETE" {
      DeleteKeepsConsistent(db, auth.value, req.id, fault);
    }
  }

  /** Every DELETE keeps the store consistent. */
  lemma DeleteKeepsConsistent(db: Db, email: string, id: Field, fault: Option<DbStep>)
    requires Consistent(db)
    ensures Consistent(DeleteRoute(db, email, id, fault).1)
  {
    if ValidId(id) && fault != Some(AtFindOwned) {
      var found := FindOwned(db.categories, db.users, email, id.s);
      if found.Some? && found.value.links == 0 && fault != Some(AtDeleteCategory) {
        RemoveIdKeepsUniqueIds(db.categories, id.s);
      }
    }
  }

  lemma PostKeepsConsistent(db: Db, email: string, userName: Option<string>, name: Field, fault: Option<DbStep>)
    requires Consistent(db)
    ensures Consistent(PostRoute(db, email, userName, name, fault).1)
  {
    var v := ValidateName(name);
    if v.Ok? && fault != Some(AtFindDuplicate) && !HasDuplicate(db, email, v.value) {
      CreateKeepsConsistent(db, email, userName, v.value, fault);
    }
  }

  /** A stored category always names a stored user, so a fresh user id owns nothing. */
  lemma FreshUserOwnsNothing(db: Db, id: string)
    requires Consistent(db) && id !in UserIds(db.users)
    ensures forall a :: a in db.categories ==> a.userId != id
  {
    forall a | a in db.categories ensures a.userId != id {
      var u :| u in db.users && u.id == a.userId;
      var k :| 0 <= k < |db.users| && db.users[k] == u;
      assert UserIds(db.users)[k] == u.id;
    }
  }

  lemma CreateKeepsConsistent(db: Db, email: string, userName: Option<string>, trimmed: string, fault: Option<DbStep>)
    requires Consistent(db) && !HasDuplicate(db, email, trimmed)
    ensures Consistent(CreateRoute(db, email, userName, trimmed, fault).1)
  {
    var existing := UserByEmail(db.users, email);
    if fault != Some(AtFindUser) && !(existing.None? && fault == Some(AtCreateUser)) {
      var (owner, users) := GetOrCreateUser(db.users, email, userName);
      var db1 := Db(users, db.categories);
      if existing.None? {
        AppendUserKeepsConsistent(db, owner);
        FreshUserOwnsNothing(db, owner.id);
      }
      if fault != Some(AtCreateCategory) {
        var c := Category(FreshId(CategoryIds(db.categories)), trimmed, owner.id, 0);
        forall a | a in db1.categories && a.userId == c.userId ensures !SameIgnoringCase(a.name, c.name) {
          assert owner in db.users && owner.email == email;
          assert OwnedBy(db.users, a, email);
        }
        AppendCategoryKeepsConsistent(db1, c);
      }
    }
  }

  // ---------------------------------------------------------------------------
  // Properties of the routes
  // ---------------------------------------------------------------------------

  /** POST with an accepted name that no category of the caller matches adds
      exactly one category: the trimmed name, a fresh id, no links, owned by
      the caller, at the end, every earlier row unchanged; the caller's user
      record is created first when missing. */
  lemma PostCreatesOne(db: Db, session: Option<Session>, req: Request)
    requires Authenticate(session).Some? && req.verb == "POST"
    requires ValidateName(req.name).Ok?
    requires !HasDuplicate(db, Authenticate(session).value, ValidateName(req.name).value)
    ensures var (res, db') := Handler(db, session, req, None);
            var email := Authenticate(session).value;
            && res.status == 201
            && |db'.categories| == |db.categories| + 1
            && db'.categories[..|db.categories|] == db.categories
            && (var c := db'.categories[|db.categories|];
                && c.name == Trim(req.name.s) && c.links == 0
                && c.id !in CategoryIds(db.categories)
                && OwnedBy(db'.users, c, email)
                && res.body == Created(View(c)))
            && (UserByEmail(db.users, email).Some? ==> db'.users == db.users)
            && (UserByEmail(db.users, email).None? ==> db'.users == db.users + [NewUser(db.users, email, session.value.name)])
  {
    var email := Authenticate(session).value;
    var existing := UserByEmail(db.users, email);
    var (res, db') := Handler(db, session, req, None);
    var owner := if existing.Some? then existing.value else NewUser(db.users, email, session.value.name);
    assert owner in db'.users;
    assert db'.categories[..|db.categories|] == db.categories;
  }

  /** POST whose trimmed name matches, case-insensitively, one of the caller's
      categories is refused with 409 and changes nothing. */
  lemma PostDuplicateRefused(db: Db, session: Option<Session>, req: Request, fault: Option<DbStep>, other: Category)
    requires Authenticate(session).Some? && req.verb == "POST"
    requires ValidateName(req.name).Ok? && fault != Some(AtFindDuplicate)
    requires other in db.categories && OwnedBy(db.users, other, Authenticate(session).value)
    requires SameIgnoringCase(other.name, Trim(req.name.s))
    ensures Handler(db, session, req, fault) == (Response(409, Message(AlreadyExists)), db)
  {
    assert HasDuplicate(db, Authenticate(session).value, ValidateName(req.name).value);
  }

  /** DELETE of the caller's category without links removes that row and only
      that row and answers 200; with links it answers 400 and removes nothing. */
  lemma DeleteOwned(db: Db, session: Option<Session>, req: Request, k: nat)
    requires UniqueIds(db.categories)
    requires Authenticate(session).Some? && req.verb == "DELETE"
    requires k < |db.categories| && req.id == Str(db.categories[k].id) && req.id.s != ""
    requires OwnedBy(db.users, db.categories[k], Authenticate(session).value)
    ensures var (res, db') := Handler(db, session, req, None);
            && (db.categories[k].links == 0 ==>
                  res == Response(200, Message(DeletedMessage))
                  && db' == Db(db.users, db.categories[..k] + db.categories[k + 1..]))
            && (db.categories[k].links > 0 ==>
                  res == Response(400, Message(HasLinksMessage(db.categories[k].links))) && db' == db)
  {
    var email := Authenticate(session).value;
    var found := FindOwned(db.categories, db.users, email, req.id.s);
    assert found.Some?;
    var j :| 0 <= j < |db.categories| && db.categories[j] == found.value;
    assert j == k;
    RemoveIdExactlyOne(db.categories, k);
    assert Handler(db, session, req, None) == DeleteRoute(db, email, req.id, None);
  }

  /** DELETE of an id that is not the caller's (missing, or another user's)
      answers 404 and changes nothing. */
  lemma DeleteNotOwned(db: Db, session: Option<Session>, req: Request)
    requires Authenticate(session).Some? && req.verb == "DELETE" && ValidId(req.id)
    requires forall c :: c in db.categories && c.id == req.id.s ==> !OwnedBy(db.users, c, Authenticate(session).value)
    ensures Handler(db, session, req, None) == (Response(404, Message(NotFound)), db)
  {
  }

  /** POST whose name is refused (missing, not a string, all white space or
      too long) answers 400 with that refusal's message and changes nothing. */
  lemma PostInvalidNameRefused(db: Db, session: Option<Session>, req: Request, fault: Option<DbStep>)
    requires Authenticate(session).Some? && req.verb == "POST"
    requires ValidateName(req.name).Err?
    ensures Handler(db, session, req, fault) == (Response(400, Message(ValidateName(req.name).message)), db)
  {
  }

  /** DELETE without a usable id (missing, not a single string, or empty)
      answers 400 and changes nothing. */
  lemma DeleteInvalidIdRefused(db: Db, session: Option<Session>, req: Request, fault: Option<DbStep>)
    requires Authenticate(session).Some? && req.verb == "DELETE"
    requires !ValidId(req.id)
    ensures Handler(db, session, req, fault) == (Response(400, Message(IdRequired)), db)
  {
  }

  /** A view is listed exactly when it is the view of one of the caller's categories. */
  lemma ViewsOfOwned(users: seq<User>, cats: seq<Category>, email: string, v: CategoryView)
    ensures v in Views(OwnedCategories(users, cats, email)) <==>
              exists c :: c in cats && OwnedBy(users, c, email) && View(c) == v
  {
    var owned := OwnedCategories(users, cats, email);
    if v in Views(owned) {
      var k :| 0 <= k < |owned| && Views(owned)[k] == v;
      assert owned[k] in owned;
    }
    if exists c :: c in cats && OwnedBy(users, c, email) && View(c) == v {
      var c :| c in cats && OwnedBy(users, c, email) && View(c) == v;
      var k :| 0 <= k < |owned| && owned[k] == c;
      assert Views(owned)[k] == v;
    }
  }

  /** GET lists exactly the caller's categories, by name. */
  lemma GetListsOwn(db: Db, session: Option<Session>, req: Request, v: CategoryView)
    requires Authenticate(session).Some? && req.verb == "GET"
    ensures var (res, db') := Handler(db, session, req, None);
            && db' == db && res.status == 200 && res.body.Listing?
            && SortedByName(res.body.categories)
            && (v in res.body.categories <==>
                  exists c :: c in db.categories && OwnedBy(db.users, c, Authenticate(session).value) && View(c) == v)
  {
    var email := Authenticate(session).value;
    var r := ListFor(db, email);
    assert Handler(db, session, req, None) == (Response(200, Listing(r)), db);
    assert v in r <==> v in multiset(Views(OwnedCategories(db.users, db.categories, email)));
    ViewsOfOwned(db.users, db.categories, email, v);
  }

  // ---------------------------------------------------------------------------
  // The store as the handler sees it
  // ---------------------------------------------------------------------------

  class CategoryStore {
    var users: seq<User>
    var categories: seq<Category>

    ghost predicate Valid()
      reads this
    {
      Consistent(Db(users, categories))
    }

    constructor()
      ensures Valid() && users == [] && categories == []
    {
      users, categories := [], [];
    }

    /** The route handler: the authentication gate, then dispatch on the method. */
    method Handle(session: Option<Session>, req: Request, fault: Option<DbStep>) returns (res: Response)
      requires Valid()
      modifies this
      ensures Valid()
      ensures (res, Db(users, categories)) == Handler(old(Db(users, categories)), session, req, fault)
    {
      HandlerKeepsConsistent(Db(users, categories), session, req, fault);

      var auth := Authenticate(session);
      if auth.None? {
        return Response(401, Message(Unauthorized));
      }
      var email := auth.value;

      if req.verb == "GET" {
        res := List(email, fault);
      } else if req.verb == "POST" {
        res := Post(email, session.value.name, req.name, fault);
      } else if req.verb == "DELETE" {
        res := Remove(email, req.id, fault);
      } else {
        res := Response(405, Message(NotAllowed));
      }
    }

    /** GET: reads the store and changes nothing. */
    method List(email: string, fault: Option<DbStep>) returns (res: Response)
      ensures res == GetRoute(Db(users, categories), email, fault)
    {
      if fault == Some(AtListCategories) {
        return ServerError();
      }
      return Response(200, Listing(ListFor(Db(users, categories), email)));
    }

    /** POST: the name checks and the duplicate check, then the creation. */
    method Post(email: string, userName: Option<string>, name: Field, fault: Option<DbStep>) returns (res: Response)
      requires Valid()
      modifies this
      ensures Valid()
      ensures (res, Db(users, categories)) == PostRoute(old(Db(users, categories)), email, userName, name, fault)
    {
      PostKeepsConsistent(Db(users, categories), email, userName, name, fault);
      var checked := ValidateName(name);
      if checked.Err? {
        return Response(400, Message(checked.message));
      }
      var trimmed := checked.value;
      if fault == Some(AtFindDuplicate) {
        return ServerError();
      }
      if HasDuplicate(Db(users, categories), email, trimmed) {
        return Response(409, Message(AlreadyExists));
      }
      res := Create(email, userName, trimmed, fault);
    }

    /** POST after its checks: get or create the user, then insert the category. */
    method Create(email: string, userName: Option<string>, trimmed: string, fault: Option<DbStep>) returns (res: Response)
      modifies this
      ensures (res, Db(users, categories)) == CreateRoute(old(Db(users, categories)), email, userName, trimmed, fault)
    {
      if fault == Some(AtFindUser) {
        return ServerError();
      }
      var existing := UserByEmail(users, email);
      var owner: User;
      if existing.Some? {
        owner := existing.value;
      } else {
        if fault == Some(AtCreateUser) {
          return ServerError();
        }
        owner := NewUser(users, email, userName);
        users := users + [owner];
      }
      if fault == Some(AtCreateCategory) {
        return ServerError();
      }
      var created := Category(FreshId(CategoryIds(categories)), trimmed, owner.id, 0);
      categories := categories + [created];
      return Response(201, Created(View(created)));
    }

    /** DELETE: the id check, the ownership lookup, the link check, the removal. */
    method Remove(email: string, id: Field, fault: Option<DbStep>) returns (res: Response)
      requires Valid()
      modifies this
      ensures Valid()
      ensures (res, Db(users, categories)) == DeleteRoute(old(Db(users, categories)), email, id, fault)
    {
      DeleteKeepsConsistent(Db(users, categories), email, id, fault);
      if !ValidId(id) {
        return Response(400, Message(IdRequired));
      }
      if fault == Some(AtFindOwned) {
        return ServerError();
      }
      var found := FindOwned(categories, users, email, id.s);
      if found.None? {
        return Response(404, Message(NotFound));
      }
      if found.value.links > 0 {
        return Response(400, Message(HasLinksMessage(found.value.links)));
      }
      if fault == Some(AtDeleteCategory) {
        return ServerError();
      }
      categories := RemoveId(categories, id.s);
      return Response(200, Message(DeletedMessage));
    }
  }
}
