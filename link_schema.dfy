/** `createLinkValidationSchema`: a Yup object schema of string fields, each a
    list of tests, and the concrete schema of the create-link form. The URL
    format test is a parameter `isUrl`, standing for Yup's own pattern. */
module LinkSchema {
  import opened Wrappers

  /** One test of a Yup string schema and the message it reports. */
  datatype Rule =
    | Required(message: string)
    | MinLength(min: nat, message: string)
    | MaxLength(max: nat, message: string)
    | UrlFormat(message: string)

  datatype FieldRules = FieldRules(field: string, rules: seq<Rule>)

  /** The form's values; a key that is missing is `undefined`. */
  type Form = map<string, string>

  datatype FieldError = FieldError(field: string, message: string)

  const TitleRules: seq<Rule> := [
    MinLength(2, "Site name must be at least 2 characters"),
    MaxLength(50, "Site name cannot exceed 50 characters"),
    Required("Site name is required")
  ]

  const UrlRules: seq<Rule> := [
    UrlFormat("Invalid URL format"),
    Required("URL is required")
  ]

  const DescriptionRules: seq<Rule> := [
    MaxLength(200, "Description cannot exceed 200 characters"),
    Required("Description is required")
  ]

  const CreateLinkSchema: seq<FieldRules> := [
    FieldRules("title", TitleRules),
    FieldRules("url", UrlRules),
    FieldRules("description", DescriptionRules)
  ]

  function Value(form: Form, field: string): Option<string> {
    if field in form then Some(form[field]) else None
  }

  /** Yup's semantics of one test: `required` rejects a missing value and the
      empty string; the length tests skip a missing value and count characters
      of the raw, untrimmed string; the URL test skips a missing value and the
      empty string. */
  predicate Passes(rule: Rule, v: Option<string>, isUrl: string -> bool) {
    match rule
    case Required(_) => v.Some? && v.value != ""
    case MinLength(n, _) => v.None? || |v.value| >= n
    case MaxLength(n, _) => v.None? || |v.value| <= n
    case UrlFormat(_) => v.None? || v.value == "" || isUrl(v.value)
  }

  /** The messages of the tests a value fails, in the order they are declared. */
  function FieldErrors(rules: seq<Rule>, v: Option<string>, isUrl: string -> bool): (r: seq<string>)
    ensures |r| <= |rules|
    ensures r == [] <==> forall k :: 0 <= k < |rules| ==> Passes(rules[k], v, isUrl)
  {
    if rules == [] then []
    else
      var rest := FieldErrors(rules[1..], v, isUrl);
      assert forall k :: 1 <= k < |rules| ==> rules[k] == rules[1..][k - 1];
      (if Passes(rules[0], v, isUrl) then [] else [rules[0].message]) + rest
  }

  /** Every failed test of every field of the schema. */
  function Errors(schema: seq<FieldRules>, form: Form, isUrl: string -> bool): (r: seq<FieldError>)
    ensures r == [] <==> forall k :: 0 <= k < |schema| ==> FieldErrors(schema[k].rules, Value(form, schema[k].field), isUrl) == []
  {
    if schema == [] then []
    else
      var here := FieldErrors(schema[0].rules, Value(form, schema[0].field), isUrl);
      var rest := Errors(schema[1..], form, isUrl);
      assert forall k :: 1 <= k < |schema| ==> schema[k] == schema[1..][k - 1];
      seq(|here|, i requires 0 <= i < |here| => FieldError(schema[0].field, here[i])) + rest
  }

  predicate Accepts(schema: seq<FieldRules>, form: Form, isUrl: string -> bool) {
    Errors(schema, form, isUrl) == []
  }

  function Fields(schema: seq<FieldRules>): set<string> {
    set k | 0 <= k < |schema| :: schema[k].field
  }

  /** A field the schema does not name (such as `categoryId`) never affects
      the errors, whatever its value. */
  lemma {:induction false} OnlySchemaFieldsMatter(schema: seq<FieldRules>, form: Form, k: string, v: string, isUrl: string -> bool)
    requires k !in Fields(schema)
    ensures Errors(schema, form[k := v], isUrl) == Errors(schema, form, isUrl)
    ensures Errors(schema, form - {k}, isUrl) == Errors(schema, form, isUrl)
  {
    if schema != [] {
      assert schema[0].field in Fields(schema);
      assert Value(form[k := v], schema[0].field) == Value(form, schema[0].field);
      assert Value(form - {k}, schema[0].field) == Value(form, schema[0].field);
      assert Fields(schema[1..]) <= Fields(schema) by {
        forall f | f in Fields(schema[1..]) ensures f in Fields(schema) {
          var j :| 0 <= j < |schema[1..]| && schema[1..][j].field == f;
          assert schema[j + 1].field == f;
        }
      }
      OnlySchemaFieldsMatter(schema[1..], form, k, v, isUrl);
    }
  }

  /** The title rules accept exactly a present title of 2 to 50 characters. */
  lemma TitleRulesAccept(v: Option<string>, isUrl: string -> bool)
    ensures FieldErrors(TitleRules, v, isUrl) == [] <==> v.Some? && 2 <= |v.value| <= 50
  {
    assert Passes(TitleRules[0], v, isUrl) && Passes(TitleRules[1], v, isUrl) && Passes(TitleRules[2], v, isUrl)
       <==> v.Some? && 2 <= |v.value| <= 50;
  }

  /** The URL rules accept exactly a present, non-empty value of URL format. */
  lemma UrlRulesAccept(v: Option<string>, isUrl: string -> bool)
    ensures FieldErrors(UrlRules, v, isUrl) == [] <==> v.Some? && v.value != "" && isUrl(v.value)
  {
    assert Passes(UrlRules[0], v, isUrl) && Passes(UrlRules[1], v, isUrl)
       <==> v.Some? && v.value != "" && isUrl(v.value);
  }

  /** The description rules accept exactly a present, non-empty description
      of at most 200 characters. */
  lemma DescriptionRulesAccept(v: Option<string>, isUrl: string -> bool)
    ensures FieldErrors(DescriptionRules, v, isUrl) == [] <==> v.Some? && v.value != "" && |v.value| <= 200
  {
    assert Passes(DescriptionRules[0], v, isUrl) && Passes(DescriptionRules[1], v, isUrl)
       <==> v.Some? && v.value != "" && |v.value| <= 200;
  }

  /** The create-link form is valid exactly when all three field rules hold. */
  lemma CreateLinkSchemaAccepts(form: Form, isUrl: string -> bool)
    ensures Accepts(CreateLinkSchema, form, isUrl) <==>
              && "title" in form && 2 <= |form["title"]| <= 50
              && "url" in form && form["url"] != "" && isUrl(form["url"])
              && "description" in form && form["description"] != "" && |form["description"]| <= 200
  {
    TitleRulesAccept(Value(form, "title"), isUrl);
    UrlRulesAccept(Value(form, "url"), isUrl);
    DescriptionRulesAccept(Value(form, "description"), isUrl);
    assert CreateLinkSchema[0] == FieldRules("title", TitleRules);
    assert CreateLinkSchema[1] == FieldRules("url", UrlRules);
    assert CreateLinkSchema[2] == FieldRules("description", DescriptionRules);
  }

  /** `categoryId` is not constrained by the schema. */
  lemma CategoryIdUnconstrained(form: Form, v: string, isUrl: string -> bool)
    ensures Accepts(CreateLinkSchema, form["categoryId" := v], isUrl) == Accepts(CreateLinkSchema, form, isUrl)
  {
    assert Fields(CreateLinkSchema) == {"title", "url", "description"} by {
      assert CreateLinkSchema[0].field == "title";
      assert CreateLinkSchema[1].field == "url";
      assert CreateLinkSchema[2].field == "description";
    }
    OnlySchemaFieldsMatter(CreateLinkSchema, form, "categoryId", v, isUrl);
  }

  /** A one-character title is reported only as too short; an empty title
      fails both the length and the required test. */
  lemma ShortTitleMessages(isUrl: string -> bool)
    ensures FieldErrors(TitleRules, Some("a"), isUrl) == ["Site name must be at least 2 characters"]
    ensures FieldErrors(TitleRules, Some(""), isUrl) == ["Site name must be at least 2 characters", "Site name is required"]
    ensures FieldErrors(TitleRules, None, isUrl) == ["Site name is required"]
  {
    assert TitleRules[1..] == [TitleRules[1], TitleRules[2]];
    assert TitleRules[1..][1..] == [TitleRules[2]];
    assert TitleRules[1..][1..][1..] == [];
  }
}
