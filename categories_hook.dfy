/** The `useCategories` and `useCategoriesSimple` hooks: the client's list of
    categories, its loading and error flags, and how each request's outcome
    updates them. */
module CategoriesHook {
  import opened Wrappers
  import opened Text
  import opened Notices
  import CategoryApi

  /** A category as the client holds it; `_count` may be missing. */
  datatype Category = Category(id: string, name: string, links: Option<nat>)

  /** A value caught by `catch (err)`: an `Error` with its message, or anything else. */
  datatype Thrown = ErrorObject(message: string) | OtherValue

  /** `fetch("/api/category")` then `response.json()`: the parsed list, a
      response that is not ok, or an exception from either call. */
  datatype FetchOutcome = Fetched(data: seq<Category>) | NotOk | Threw(error: Thrown)

  /** A POST or DELETE round trip: an ok response and its parsed body, a
      response that is not ok and its body's `message`, or an exception. */
  datatype Reply<T> = Accepted(data: T) | Refused(message: Option<string>) | Failed

  const FetchFailed: string := "Failed to fetch categories"
  const UnknownError: string := "Unknown error"
  const LoadFailed: string := "Failed to load categories"
  const CreatedNotice: string := "Category created successfully"
  const CreateFailed: string := "Failed to create category"
  const DeletedNotice: string := "Category deleted successfully"
  const DeleteFailed: string := "Failed to delete category"

  /** What `fetchCategories` stores in `error` when the fetch fails. */
  function FetchErrorMessage(outcome: FetchOutcome): string
    requires !outcome.Fetched?
  {
    match outcome
    case NotOk => FetchFailed
    case Threw(ErrorObject(m)) => m
    case Threw(OtherValue) => UnknownError
  }

  /** The toast a create or delete raises: success, the server's message when
      it gave a truthy one, or the fixed fallback. */
  function ReplyToast<T>(reply: Reply<T>, success: string, fallback: string): Toast {
    match reply
    case Accepted(_) => Toast(Success, success)
    case Refused(m) => Toast(Failure, if m.Some? && m.value != "" then m.value else fallback)
    case Failed => Toast(Failure, fallback)
  }

  // ---------------------------------------------------------------------------
  // List updates
  // ---------------------------------------------------------------------------

  /** `prev.filter((cat) => cat.id !== id)`. */
  function WithoutId(list: seq<Category>, id: string): (r: seq<Category>)
    ensures forall c :: c in r <==> c in list && c.id != id
    ensures |r| <= |list|
  {
    if list == [] then []
    else (if list[0].id == id then [] else [list[0]]) + WithoutId(list[1..], id)
  }

  /** The filter works piece by piece, so the entries it keeps stay in their order. */
  lemma {:induction false} WithoutIdAppend(a: seq<Category>, b: seq<Category>, id: string)
    ensures WithoutId(a + b, id) == WithoutId(a, id) + WithoutId(b, id)
  {
    if a == [] {
      assert a + b == b;
    } else {
      assert (a + b)[1..] == a[1..] + b;
      WithoutIdAppend(a[1..], b, id);
    }
  }

  /** Removing an id that no entry has changes nothing. */
  lemma {:induction false} WithoutIdAbsent(list: seq<Category>, id: string)
    requires forall c :: c in list ==> c.id != id
    ensures WithoutId(list, id) == list
  {
    if list != [] {
      WithoutIdAbsent(list[1..], id);
      assert list == [list[0]] + list[1..];
    }
  }

  /** Deleting the same id twice is deleting it once. */
  lemma WithoutIdIdempotent(list: seq<Category>, id: string)
    ensures WithoutId(WithoutId(list, id), id) == WithoutId(list, id)
  {
    WithoutIdAbsent(WithoutId(list, id), id);
  }

  /** Creating a category the list does not hold and then deleting it gives
      back the list as it was. */
  lemma CreateThenDeleteRestores(list: seq<Category>, c: Category)
    requires forall x :: x in list ==> x.id != c.id
    ensures WithoutId(list + [c], c.id) == list
  {
    WithoutIdAppend(list, [c], c.id);
    WithoutIdAbsent(list, c.id);
  }

  /** The client trims before sending and the server trims again: when the
      server accepts the name, it stores exactly what the client sent. */
  lemma ServerStoresSentName(name: string)
    requires CategoryApi.ValidateName(CategoryApi.Str(Trim(name))).Ok?
    ensures CategoryApi.ValidateName(CategoryApi.Str(Trim(name))).value == Trim(name)
    ensures CategoryApi.ValidateName(CategoryApi.Str(name)) == CategoryApi.ValidateName(CategoryApi.Str(Trim(name)))
  {
    TrimIdempotent(name);
    TrimEmptyIffAllSpace(name);
    TrimEmptyIffAllSpace(Trim(name));
  }

  /** What the server can answer to a name this client sends: an all-space
      name arrives empty and is refused as missing, never as "cannot be
      empty", although the server answers the raw all-space name that way. */
  lemma TrimmedNameNeverBlank(name: string)
    ensures AllSpace(name) ==> CategoryApi.ValidateName(CategoryApi.Str(Trim(name))) == Err(CategoryApi.NameRequired)
    ensures name != "" && AllSpace(name) ==> CategoryApi.ValidateName(CategoryApi.Str(name)) == Err(CategoryApi.NameEmpty)
    ensures CategoryApi.ValidateName(CategoryApi.Str(Trim(name))) != Err(CategoryApi.NameEmpty)
  {
    TrimEmptyIffAllSpace(name);
    TrimEmptyIffAllSpace(Trim(name));
  }

  // ---------------------------------------------------------------------------
  // useCategories
  // ---------------------------------------------------------------------------

  class CategoriesState {
    var categories: seq<Category>
    var isLoading: bool
    var error: Option<string>
    var toasts: seq<Toast>
    /** Every value handed to `setIsLoading`, oldest first. */
    ghost var loadingTrace: seq<bool>

    /** The hook's first render, before its mount effect runs `FetchCategories`. */
    constructor()
      ensures categories == [] && !isLoading && error == None
      ensures toasts == [] && loadingTrace == []
    {
      categories, isLoading, error := [], false, None;
      toasts, loadingTrace := [], [];
    }

    /** `fetchCategories` (and `refreshCategories`, which only awaits it):
        loading is raised and the error cleared; a successful fetch replaces
        the list; a failed one keeps it, records the failure's message and
        raises an error toast; loading is lowered in every case. */
    method FetchCategories(outcome: FetchOutcome)
      modifies this
      ensures loadingTrace == old(loadingTrace) + [true, false] && !isLoading
      ensures outcome.Fetched? ==> categories == outcome.data && error == None && toasts == old(toasts)
      ensures !outcome.Fetched? ==>
                && categories == old(categories)
                && error == Some(FetchErrorMessage(outcome))
                && toasts == old(toasts) + [Toast(Failure, LoadFailed)]
    {
      isLoading := true;
      loadingTrace := loadingTrace + [true];
      error := None;

      if outcome.Fetched? {
        categories := outcome.data;
      } else {
        error := Some(FetchErrorMessage(outcome));
        toasts := toasts + [Toast(Failure, LoadFailed)];
      }

      isLoading := false;
      loadingTrace := loadingTrace + [false];
    }

    /** `createCategory(name)`: sends the trimmed name; on an ok reply appends
        the created category at the end and answers true; otherwise leaves the
        list alone and answers false. The flags are not touched. */
    method CreateCategory(name: string, reply: Reply<Category>) returns (ok: bool, sent: string)
      modifies this
      ensures sent == Trim(name)
      ensures ok == reply.Accepted?
      ensures categories == if ok then old(categories) + [reply.data] else old(categories)
      ensures toasts == old(toasts) + [ReplyToast(reply, CreatedNotice, CreateFailed)]
      ensures isLoading == old(isLoading) && error == old(error) && loadingTrace == old(loadingTrace)
    {
      sent := Trim(name);
      match reply {
        case Accepted(created) =>
          categories := categories + [created];
          ok := true;
        case Refused(_) =>
          ok := false;
        case Failed =>
          ok := false;
      }
      toasts := toasts + [ReplyToast(reply, CreatedNotice, CreateFailed)];
    }

    /** `deleteCategory(id)`: on an ok reply removes every entry with that id,
        keeping the others in order, and answers true; otherwise leaves the
        list alone and answers false. The flags are not touched. */
    method DeleteCategory(id: string, reply: Reply<()>) returns (ok: bool)
      modifies this
      ensures ok == reply.Accepted?
      ensures categories == if ok then WithoutId(old(categories), id) else old(categories)
      ensures toasts == old(toasts) + [ReplyToast(reply, DeletedNotice, DeleteFailed)]
      ensures isLoading == old(isLoading) && error == old(error) && loadingTrace == old(loadingTrace)
    {
      ok := reply.Accepted?;
      if ok {
        categories := WithoutId(categories, id);
      }
      toasts := toasts + [ReplyToast(reply, DeletedNotice, DeleteFailed)];
    }
  }

  // ---------------------------------------------------------------------------
  // useCategoriesSimple
  // ---------------------------------------------------------------------------

  class SimpleCategoriesState {
    var categories: seq<Category>
    var isLoading: bool
    ghost var loadingTrace: seq<bool>

    constructor()
      ensures categories == [] && !isLoading && loadingTrace == []
    {
      categories, isLoading, loadingTrace := [], false, [];
    }

    /** The mount effect: the list is replaced only by a successful fetch;
        a response that is not ok or an exception changes nothing but the
        loading flag, which ends lowered. */
    method FetchCategories(outcome: FetchOutcome)
      modifies this
      ensures categories == if outcome.Fetched? then outcome.data else old(categories)
      ensures !isLoading && loadingTrace == old(loadingTrace) + [true, false]
    {
      isLoading := true;
      loadingTrace := loadingTrace + [true];
      if outcome.Fetched? {
        categories := outcome.data;
      }
      isLoading := false;
      loadingTrace := loadingTrace + [false];
    }
  }
}
