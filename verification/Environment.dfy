/**
  Project environment variables: accepted by the API, normalised, and rendered by two backends.
  control_plane/application/projects/validation.py, control_plane/security.py,
  worker/workload_environment.py, worker/executors/kubernetes/manifest_renderer.py,
  worker/executors/kubernetes/preflight.py, worker/helm/values.py.
 */
module Environment {
  import opened Basics
  import opened Strings

  // A JSON value. Other covers numbers, lists and objects: their text and truth value is all that is read.
  datatype Json = Null | Bool(b: bool) | Text(s: string) | Other(text: string, truthy: bool)

  datatype Item = NotObject | Object(fields: map<string, Json>)

  datatype Payload = NotList | Items(items: seq<Item>)

  const MaxVars := 100
  const MaxName := 253
  const MaxValue := 65535
  const MaxReference := 253

  const AllowedFields := {"name", "value", "value_source", "source_name", "source_key", "is_secret"}

  function Get(fields: map<string, Json>, key: string): Json {
    if key in fields then fields[key] else Null
  }

  predicate Truthy(v: Json) {
    match v
    case Null => false
    case Bool(b) => b
    case Text(s) => s != ""
    case Other(_, truthy) => truthy
  }

  function Str(v: Json): string {
    match v
    case Null => "None"
    case Bool(b) => if b then "True" else "False"
    case Text(s) => s
    case Other(text, _) => text
  }

  const Literal := Text("literal")
  const FromConfigMap := Text("configmap_key_ref")
  const FromSecret := Text("secret_key_ref")

  // Older clients sent only a value.
  function Source(fields: map<string, Json>): Json {
    if !Get(fields, "value_source").Null? then Get(fields, "value_source")
    else if !Get(fields, "value").Null? then Literal
    else Null
  }

  /******* What the API accepts *******/

  predicate UpperLetter(c: char) {
    'A' <= c <= 'Z'
  }

  predicate NameStart(c: char) {
    Letter(c) || UpperLetter(c) || c == '_'
  }

  // [A-Za-z_][A-Za-z0-9_]*
  predicate IsVariableName(s: string) {
    s != "" && NameStart(s[0]) && forall k | 0 <= k < |s| :: NameStart(s[k]) || Digit(s[k])
  }

  // A DNS subdomain: dot-separated labels that start and end with a letter or digit.
  predicate IsSubdomain(s: string) {
    && s != "" && Alnum(s[0]) && Alnum(s[|s| - 1])
    && (forall k | 0 <= k < |s| :: Alnum(s[k]) || s[k] == '-' || s[k] == '.')
    && (forall k | 0 < k < |s| - 1 && s[k] == '.' :: Alnum(s[k - 1]) && Alnum(s[k + 1]))
  }

  predicate KeyChar(c: char) {
    NameStart(c) || Digit(c) || c == '-' || c == '.'
  }

  predicate IsConfigKey(s: string) {
    s != "" && All(s, KeyChar) && s != "." && !(".." <= s)
  }

  predicate Printable(s: string) {
    forall k | 0 <= k < |s| :: 32 <= s[k] as int && s[k] as int != 127
  }

  predicate Blank(s: string) {
    Strip(s, IsSpace) == ""
  }

  predicate IsResourceName(v: Json) {
    v.Text? && !Blank(v.s) && |v.s| <= MaxReference && Printable(v.s) && IsSubdomain(v.s)
  }

  predicate IsResourceKey(v: Json) {
    v.Text? && !Blank(v.s) && |v.s| <= MaxReference && Printable(v.s) && IsConfigKey(v.s)
  }

  predicate Flag(v: Json) {
    v.Null? || v.Bool?
  }

  predicate NameOk(fields: map<string, Json>, kubernetes: bool) {
    var name := Get(fields, "name");
    name.Text? && !Blank(name.s) && |name.s| <= MaxName && (kubernetes ==> IsVariableName(name.s))
  }

  predicate LiteralOk(fields: map<string, Json>, kubernetes: bool) {
    && Source(fields) == Literal
    && Get(fields, "value").Text? && |Get(fields, "value").s| <= MaxValue
    && Get(fields, "source_name").Null? && Get(fields, "source_key").Null?
    && Flag(Get(fields, "is_secret")) && (kubernetes ==> Get(fields, "is_secret") != Bool(true))
  }

  predicate ReferenceOk(fields: map<string, Json>) {
    && (Source(fields) == FromConfigMap || Source(fields) == FromSecret)
    && Get(fields, "value").Null? && Flag(Get(fields, "is_secret"))
    && IsResourceName(Get(fields, "source_name")) && IsResourceKey(Get(fields, "source_key"))
  }

  predicate ItemOk(item: Item, kubernetes: bool) {
    && item.Object? && item.fields.Keys <= AllowedFields
    && NameOk(item.fields, kubernetes)
    && (LiteralOk(item.fields, kubernetes) || ReferenceOk(item.fields))
  }

  function Name(item: Item): Json {
    if item.Object? then Get(item.fields, "name") else Null
  }

  predicate Distinct(items: seq<Item>) {
    forall i, j | 0 <= i < j < |items| :: Name(items[i]) != Name(items[j])
  }

  predicate Accepted(items: seq<Item>, kubernetes: bool) {
    && |items| <= MaxVars
    && (forall i | 0 <= i < |items| :: ItemOk(items[i], kubernetes))
    && (kubernetes ==> Distinct(items))
  }

  datatype Reason =
    | ExpectedObject
    | UnsupportedFields
    | NameRequired
    | NameTooLong
    | NameInvalid
    | NameDuplicate
    | SourceRequired
    | SourceNotString
    | SourceUnknown
    | ValueRequired
    | ValueNotString
    | ValueTooLong
    | LiteralWithSource
    | ReferenceWithValue
    | SecretNotBoolean
    | LiteralSecret
    | SourceNameInvalid
    | SourceKeyInvalid

  datatype Rejection = ExpectedList | TooMany | At(index: nat, reason: Reason)

  function ShapeReason(item: Item, kubernetes: bool): (r: Option<Reason>)
    ensures r.None? <==> item.Object? && item.fields.Keys <= AllowedFields && NameOk(item.fields, kubernetes)
  {
    if item.NotObject? then Some(ExpectedObject)
    else if !(item.fields.Keys <= AllowedFields) then Some(UnsupportedFields)
    else
      var name := Get(item.fields, "name");
      if !name.Text? || Blank(name.s) then Some(NameRequired)
      else if |name.s| > MaxName then Some(NameTooLong)
      else if kubernetes && !IsVariableName(name.s) then Some(NameInvalid)
      else None
  }

  function LiteralReason(fields: map<string, Json>, kubernetes: bool): (r: Option<Reason>)
    requires Source(fields) == Literal
    ensures r.None? <==> LiteralOk(fields, kubernetes)
  {
    var value, secret := Get(fields, "value"), Get(fields, "is_secret");
    if value.Null? then Some(ValueRequired)
    else if !value.Text? then Some(ValueNotString)
    else if |value.s| > MaxValue then Some(ValueTooLong)
    else if !Get(fields, "source_name").Null? || !Get(fields, "source_key").Null? then Some(LiteralWithSource)
    else if !secret.Null? && !secret.Bool? then Some(SecretNotBoolean)
    else if kubernetes && secret == Bool(true) then Some(LiteralSecret)
    else None
  }

  function ReferenceReason(fields: map<string, Json>): (r: Option<Reason>)
    requires Source(fields) == FromConfigMap || Source(fields) == FromSecret
    ensures r.None? <==> ReferenceOk(fields)
  {
    var secret := Get(fields, "is_secret");
    if !Get(fields, "value").Null? then Some(ReferenceWithValue)
    else if !secret.Null? && !secret.Bool? then Some(SecretNotBoolean)
    else if !IsResourceName(Get(fields, "source_name")) then Some(SourceNameInvalid)
    else if !IsResourceKey(Get(fields, "source_key")) then Some(SourceKeyInvalid)
    else None
  }

  function ValueReason(fields: map<string, Json>, kubernetes: bool): (r: Option<Reason>)
    ensures r.None? <==> LiteralOk(fields, kubernetes) || ReferenceOk(fields)
  {
    if Source(fields).Null? then Some(SourceRequired)
    else if !Source(fields).Text? then Some(SourceNotString)
    else if Source(fields) == Literal then LiteralReason(fields, kubernetes)
    else if Source(fields) == FromConfigMap || Source(fields) == FromSecret then ReferenceReason(fields)
    else Some(SourceUnknown)
  }

  function ItemReason(item: Item, kubernetes: bool, seen: set<Json>): (r: Option<Reason>)
    ensures r.None? <==> ItemOk(item, kubernetes) && (kubernetes ==> Name(item) !in seen)
  {
    var shape := ShapeReason(item, kubernetes);
    if shape.Some? then shape
    else if kubernetes && Name(item) in seen then Some(NameDuplicate)
    else ValueReason(item.fields, kubernetes)
  }

  // The rules in the order in which they are applied.
  function Order(reason: Reason): nat {
    match reason
    case ExpectedObject => 0
    case UnsupportedFields => 1
    case NameRequired => 2
    case NameTooLong => 3
    case NameInvalid => 4
    case NameDuplicate => 5
    case SourceRequired => 6
    case SourceNotString => 7
    case SourceUnknown => 8
    case ValueRequired => 9
    case ValueNotString => 10
    case ValueTooLong => 11
    case LiteralWithSource => 12
    case ReferenceWithValue => 13
    case SecretNotBoolean => 14
    case LiteralSecret => 15
    case SourceNameInvalid => 16
    case SourceKeyInvalid => 17
  }

  // The item breaks the rule; seen are the names of the items before it.
  predicate Breaks(reason: Reason, item: Item, kubernetes: bool, seen: set<Json>) {
    if item.NotObject? then reason.ExpectedObject?
    else
      var f := item.fields;
      var name, value, source, secret := Get(f, "name"), Get(f, "value"), Get(f, "value_source"), Get(f, "is_secret");
      var literal := source == Text("literal") || (source.Null? && !value.Null?);
      var reference := source == Text("configmap_key_ref") || source == Text("secret_key_ref");
      match reason
      case ExpectedObject => false
      case UnsupportedFields => exists key | key in f :: key !in AllowedFields
      case NameRequired => !name.Text? || Blank(name.s)
      case NameTooLong => name.Text? && |name.s| > 253
      case NameInvalid => kubernetes && name.Text? && !IsVariableName(name.s)
      case NameDuplicate => kubernetes && name in seen
      case SourceRequired => source.Null? && value.Null?
      case SourceNotString => !source.Null? && !source.Text?
      case SourceUnknown => source.Text? && !literal && !reference
      case ValueRequired => literal && value.Null?
      case ValueNotString => literal && !value.Null? && !value.Text?
      case ValueTooLong => literal && value.Text? && |value.s| > 65535
      case LiteralWithSource => literal && (!Get(f, "source_name").Null? || !Get(f, "source_key").Null?)
      case ReferenceWithValue => reference && !value.Null?
      case SecretNotBoolean => !secret.Null? && !secret.Bool?
      case LiteralSecret => kubernetes && literal && secret == Bool(true)
      case SourceNameInvalid => reference && !IsResourceName(Get(f, "source_name"))
      case SourceKeyInvalid => reference && !IsResourceKey(Get(f, "source_key"))
  }

  ghost predicate FirstBroken(reason: Reason, item: Item, kubernetes: bool, seen: set<Json>) {
    && Breaks(reason, item, kubernetes, seen)
    && forall other | Order(other) < Order(reason) :: !Breaks(other, item, kubernetes, seen)
  }

  // An item is accepted when it breaks no rule, and otherwise the first rule it breaks is reported.
  lemma FirstBrokenIsReported(item: Item, kubernetes: bool, seen: set<Json>)
    ensures match ItemReason(item, kubernetes, seen)
            case None => forall reason: Reason :: !Breaks(reason, item, kubernetes, seen)
            case Some(reason) => FirstBroken(reason, item, kubernetes, seen)
  {
    if item.Object? {
      assert item.fields.Keys <= AllowedFields <==> !exists key | key in item.fields :: key !in AllowedFields;
    }
  }

  function Names(items: seq<Item>): set<Json> {
    set i | 0 <= i < |items| :: Name(items[i])
  }

  lemma AcceptedExtends(items: seq<Item>, item: Item, kubernetes: bool)
    requires Accepted(items, kubernetes) && |items| < MaxVars
    ensures Accepted(items + [item], kubernetes) <==>
              ItemOk(item, kubernetes) && (kubernetes ==> Name(item) !in Names(items))
    ensures Names(items + [item]) == Names(items) + {Name(item)}
  {
    var longer := items + [item];
    assert longer[|items|] == item;
    forall i | 0 <= i < |items| ensures longer[i] == items[i] && Name(items[i]) in Names(longer) {
      assert longer[i] == items[i];
    }
    if kubernetes && Name(item) in Names(items) {
      var k :| 0 <= k < |items| && Name(items[k]) == Name(item);
      assert longer[k] == items[k];
    }
  }

  lemma AcceptedPrefix(items: seq<Item>, n: nat, kubernetes: bool)
    requires n <= |items| && Accepted(items, kubernetes)
    ensures Accepted(items[..n], kubernetes)
  {
  }

  lemma NextItem(items: seq<Item>, i: nat, kubernetes: bool)
    requires i < |items| <= MaxVars && Accepted(items[..i], kubernetes)
    ensures Accepted(items[..i + 1], kubernetes) <==>
              ItemOk(items[i], kubernetes) && (kubernetes ==> Name(items[i]) !in Names(items[..i]))
    ensures Names(items[..i + 1]) == Names(items[..i]) + {Name(items[i])}
    ensures Accepted(items, kubernetes) ==> Accepted(items[..i + 1], kubernetes)
  {
    AcceptedExtends(items[..i], items[i], kubernetes);
    assert items[..i + 1] == items[..i] + [items[i]];
    if Accepted(items, kubernetes) { AcceptedPrefix(items, i + 1, kubernetes); }
  }

  // The first offending item is reported; nothing is reported exactly for the accepted lists.
  method Validate(payload: Payload, kubernetes: bool) returns (r: Option<Rejection>)
    ensures r.None? <==> payload.Items? && Accepted(payload.items, kubernetes)
    ensures r.Some? && r.value.At? ==>
              payload.Items? && r.value.index < |payload.items|
              && Accepted(payload.items[..r.value.index], kubernetes)
              && !Accepted(payload.items[..r.value.index + 1], kubernetes)
              && FirstBroken(r.value.reason, payload.items[r.value.index], kubernetes, Names(payload.items[..r.value.index]))
    ensures r == Some(ExpectedList) <==> payload.NotList?
    ensures r == Some(TooMany) <==> payload.Items? && |payload.items| > 100
  {
    if payload.NotList? {
      return Some(ExpectedList);
    }
    var items := payload.items;
    if |items| > MaxVars {
      return Some(TooMany);
    }
    var seen: set<Json> := {};
    for i := 0 to |items|
      invariant Accepted(items[..i], kubernetes)
      invariant seen == Names(items[..i])
    {
      NextItem(items, i, kubernetes);
      var reason := ItemReason(items[i], kubernetes, seen);
      FirstBrokenIsReported(items[i], kubernetes, seen);
      if reason.Some? {
        return Some(At(i, reason.value));
      }
      seen := seen + {Name(items[i])};
    }
    assert items[..|items|] == items;
    return None;
  }

  /******* What is stored and what a workload gets *******/

  function NormalizedItem(item: Item): Item {
    if item.NotObject? then item
    else if Get(item.fields, "value_source") == FromSecret then Object(item.fields["is_secret" := Bool(true)])
    else if "is_secret" in item.fields then Object(item.fields["is_secret" := Bool(Truthy(item.fields["is_secret"]))])
    else item
  }

  function Normalized(items: seq<Item>): seq<Item> {
    seq(|items|, i requires 0 <= i < |items| => NormalizedItem(items[i]))
  }

  const CommitVariable := Text("APP_COMMIT_SHA")
  const VersionVariable := Text("APP_VERSION")

  predicate ReservedName(item: Item) {
    item.Object? && (Name(item) == CommitVariable || Name(item) == VersionVariable)
  }

  function Unreserved(items: seq<Item>): seq<Item> {
    if items == [] then []
    else
      var n := |items| - 1;
      Unreserved(items[..n]) + if ReservedName(items[n]) then [] else [items[n]]
  }

  function Identity(name: Json, value: string): Item {
    Object(map["name" := name, "value_source" := Literal, "value" := Text(value)])
  }

  // commit and tag are the build's, with "" for a missing one.
  function Resolved(items: seq<Item>, commit: string, tag: string): seq<Item> {
    Unreserved(items) + [Identity(CommitVariable, commit), Identity(VersionVariable, tag)]
  }

  /******* Rendering *******/

  datatype Entry =
    | Value(name: Json, value: string)
    | ConfigMapKey(name: Json, source: string, key: string)
    | SecretKey(name: Json, source: string, key: string)

  predicate IsSecret(item: Item) {
    item.Object? && (Get(item.fields, "value_source") == FromSecret || Truthy(Get(item.fields, "is_secret")))
  }

  predicate Referable(fields: map<string, Json>) {
    Truthy(Get(fields, "source_name")) && Truthy(Get(fields, "source_key"))
  }

  function Rendered(item: Item): Option<Entry> {
    if item.NotObject? || !Truthy(Name(item)) then None
    else
      var f := item.fields;
      var source, key := Str(Get(f, "source_name")), Str(Get(f, "source_key"));
      if Source(f) == Literal && !Get(f, "value").Null? then Some(Value(Name(item), Str(Get(f, "value"))))
      else if Source(f) == FromConfigMap && Referable(f) then Some(ConfigMapKey(Name(item), source, key))
      else if Source(f) == FromSecret && Referable(f) then Some(SecretKey(Name(item), source, key))
      else None
  }

  function RenderedAll(env: seq<Item>): seq<Entry> {
    if env == [] then []
    else
      var n := |env| - 1;
      RenderedAll(env[..n]) + match Rendered(env[n]) { case None => [] case Some(e) => [e] }
  }

  // A secret with a literal value, in the sense of each renderer.
  predicate ManifestRefuses(item: Item) {
    IsSecret(item) && !Get(item.fields, "value").Null?
  }

  predicate HelmRefuses(item: Item) {
    IsSecret(item) && Truthy(Name(item)) && Source(item.fields) == Literal && !Get(item.fields, "value").Null?
  }

  // The Helm renderer turns every name into a string.
  function Named(e: Entry): Entry {
    e.(name := Text(Str(e.name)))
  }

  function NamedAll(entries: seq<Entry>): seq<Entry> {
    seq(|entries|, i requires 0 <= i < |entries| => Named(entries[i]))
  }

  datatype RenderError = LiteralSecretRefused

  lemma RenderedStep(env: seq<Item>, i: nat)
    requires i < |env|
    ensures RenderedAll(env[..i + 1]) == RenderedAll(env[..i]) + match Rendered(env[i]) { case None => [] case Some(e) => [e] }
  {
    assert env[..i + 1][..i] == env[..i];
  }

  lemma NamedStep(env: seq<Item>, i: nat)
    requires i < |env|
    ensures NamedAll(RenderedAll(env[..i + 1]))
         == NamedAll(RenderedAll(env[..i])) + match Rendered(env[i]) { case None => [] case Some(e) => [Named(e)] }
  {
    RenderedStep(env, i);
  }

  method KubernetesEnvVars(env: seq<Item>) returns (rendered: seq<Entry>)
    ensures rendered == RenderedAll(env)
  {
    rendered := [];
    for i := 0 to |env|
      invariant rendered == RenderedAll(env[..i])
    {
      RenderedStep(env, i);
      var item := env[i];
      if item.NotObject? || !Truthy(Name(item)) {
        continue;
      }
      var f := item.fields;
      if Source(f) == Literal && !Get(f, "value").Null? {
        rendered := rendered + [Value(Name(item), Str(Get(f, "value")))];
        continue;
      }
      if Source(f) == FromConfigMap && Referable(f) {
        rendered := rendered + [ConfigMapKey(Name(item), Str(Get(f, "source_name")), Str(Get(f, "source_key")))];
        continue;
      }
      if Source(f) == FromSecret && Referable(f) {
        rendered := rendered + [SecretKey(Name(item), Str(Get(f, "source_name")), Str(Get(f, "source_key")))];
      }
    }
    assert env[..|env|] == env;
  }

  // The environment of the manifest: all literal secrets are looked for before anything is rendered.
  method ManifestEnvironment(env: seq<Item>) returns (r: Result<seq<Entry>, RenderError>)
    ensures r == if exists i | 0 <= i < |env| :: ManifestRefuses(env[i]) then Err(LiteralSecretRefused)
                 else Ok(RenderedAll(env))
  {
    if exists i | 0 <= i < |env| :: ManifestRefuses(env[i]) {
      return Err(LiteralSecretRefused);
    }
    var rendered := KubernetesEnvVars(env);
    return Ok(rendered);
  }

  // The environment of the Helm values: each item is judged when it is reached.
  method EnvValues(env: seq<Item>) returns (r: Result<seq<Entry>, RenderError>)
    ensures r == if exists i | 0 <= i < |env| :: HelmRefuses(env[i]) then Err(LiteralSecretRefused)
                 else Ok(NamedAll(RenderedAll(env)))
  {
    var rendered: seq<Entry> := [];
    for i := 0 to |env|
      invariant rendered == NamedAll(RenderedAll(env[..i]))
      invariant forall k | 0 <= k < i :: !HelmRefuses(env[k])
    {
      NamedStep(env, i);
      var item := env[i];
      if item.NotObject? || !Truthy(Name(item)) {
        continue;
      }
      var f := item.fields;
      var name := Text(Str(Name(item)));
      if Source(f) == Literal && !Get(f, "value").Null? {
        if IsSecret(item) {
          assert HelmRefuses(env[i]);
          return Err(LiteralSecretRefused);
        }
        rendered := rendered + [Value(name, Str(Get(f, "value")))];
        continue;
      }
      if Source(f) == FromConfigMap && Referable(f) {
        rendered := rendered + [ConfigMapKey(name, Str(Get(f, "source_name")), Str(Get(f, "source_key")))];
        continue;
      }
      if Source(f) == FromSecret && Referable(f) {
        rendered := rendered + [SecretKey(name, Str(Get(f, "source_name")), Str(Get(f, "source_key")))];
      }
    }
    assert env[..|env|] == env;
    return Ok(rendered);
  }

  /******* Complete and identical rendering *******/

  // One entry says what its item says.
  predicate Describes(item: Item, e: Entry) {
    && item.Object? && e.name == Name(item)
    && match Source(item.fields)
       case Text("literal") => e.Value? && Get(item.fields, "value") == Text(e.value)
       case Text("configmap_key_ref") =>
         e.ConfigMapKey? && Get(item.fields, "source_name") == Text(e.source) && Get(item.fields, "source_key") == Text(e.key)
       case Text("secret_key_ref") =>
         e.SecretKey? && Get(item.fields, "source_name") == Text(e.source) && Get(item.fields, "source_key") == Text(e.key)
       case _ => false
  }

  // The entries describe the items one by one, in order.
  predicate DescribesAll(items: seq<Item>, entries: seq<Entry>) {
    |entries| == |items| && forall i | 0 <= i < |items| :: Describes(items[i], entries[i])
  }

  predicate LiteralSecretItem(item: Item) {
    item.Object? && Source(item.fields) == Literal && Get(item.fields, "is_secret") == Bool(true)
  }

  // What an accepted item is once it is stored.
  predicate Stored(item: Item) {
    && item.Object? && Name(item).Text? && Name(item).s != ""
    && (|| (Source(item.fields) == Literal && Get(item.fields, "value").Text?)
        || (&& (Source(item.fields) == FromConfigMap || Source(item.fields) == FromSecret)
            && Get(item.fields, "value").Null?
            && Get(item.fields, "source_name").Text? && Get(item.fields, "source_name").s != ""
            && Get(item.fields, "source_key").Text? && Get(item.fields, "source_key").s != ""))
    && Flag(Get(item.fields, "is_secret"))
  }

  lemma BlankEmpty()
    ensures Blank("")
  {
  }

  lemma NormalizedIsStored(item: Item, kubernetes: bool)
    requires ItemOk(item, kubernetes)
    ensures Stored(NormalizedItem(item)) && Name(NormalizedItem(item)) == Name(item)
    ensures LiteralSecretItem(NormalizedItem(item)) <==> LiteralSecretItem(item)
    ensures forall e :: Describes(item, e) <==> Describes(NormalizedItem(item), e)
  {
    BlankEmpty();
    var f := item.fields;
    assert !(Source(f) == Literal && Get(f, "value_source") == FromSecret);
  }

  lemma StoredRenders(item: Item)
    requires Stored(item)
    ensures Rendered(item).Some? && Describes(item, Rendered(item).value) && Rendered(item).value.name.Text?
    ensures ManifestRefuses(item) <==> LiteralSecretItem(item)
    ensures HelmRefuses(item) <==> LiteralSecretItem(item)
  {
  }

  lemma {:induction false} StoredRenderAll(env: seq<Item>)
    requires forall i | 0 <= i < |env| :: Stored(env[i])
    ensures DescribesAll(env, RenderedAll(env)) && NamedAll(RenderedAll(env)) == RenderedAll(env)
  {
    if env != [] {
      var n := |env| - 1;
      StoredRenderAll(env[..n]);
      StoredRenders(env[n]);
      var e := Rendered(env[n]).value;
      assert RenderedAll(env) == RenderedAll(env[..n]) + [e];
      assert Named(e) == e;
      forall i | 0 <= i < |env| ensures Describes(env[i], RenderedAll(env)[i]) {
        if i < n { assert env[..n][i] == env[i]; }
      }
    }
  }

  lemma {:induction false} UnreservedFacts(items: seq<Item>)
    ensures forall i | 0 <= i < |Unreserved(items)| :: Unreserved(items)[i] in items && !ReservedName(Unreserved(items)[i])
    ensures forall item | item in items && !ReservedName(item) :: item in Unreserved(items)
  {
    if items != [] {
      var n := |items| - 1;
      UnreservedFacts(items[..n]);
      assert items == items[..n] + [items[n]];
    }
  }

  // The kept items stay in order.
  lemma {:induction false} UnreservedAppend(a: seq<Item>, b: seq<Item>)
    ensures Unreserved(a + b) == Unreserved(a) + Unreserved(b)
  {
    if b == [] {
      assert a + b == a;
    } else {
      var n := |b| - 1;
      assert (a + b)[..|a + b| - 1] == a + b[..n];
      UnreservedAppend(a, b[..n]);
    }
  }

  lemma NormalizedAppend(items: seq<Item>, item: Item)
    ensures Normalized(items + [item]) == Normalized(items) + [NormalizedItem(item)]
  {
  }

  lemma NormalizedKeepsName(item: Item)
    ensures Name(NormalizedItem(item)) == Name(item) && ReservedName(NormalizedItem(item)) == ReservedName(item)
  {
  }

  // Normalising does not disturb which items are kept, or their order.
  lemma {:induction false} UnreservedNormalized(items: seq<Item>)
    ensures Unreserved(Normalized(items)) == Normalized(Unreserved(items))
  {
    if items != [] {
      var n := |items| - 1;
      UnreservedNormalized(items[..n]);
      assert Normalized(items)[..n] == Normalized(items[..n]);
      NormalizedKeepsName(items[n]);
      NormalizedAppend(Unreserved(items[..n]), items[n]);
    }
  }

  function Workload(items: seq<Item>, commit: string, tag: string): seq<Item> {
    Resolved(Normalized(items), commit, tag)
  }

  function Refusing(items: seq<Item>): bool {
    exists i | 0 <= i < |Unreserved(items)| :: LiteralSecretItem(Unreserved(items)[i])
  }

  function Identities(commit: string, tag: string): seq<Item> {
    [Identity(CommitVariable, commit), Identity(VersionVariable, tag)]
  }

  lemma WorkloadItems(items: seq<Item>, commit: string, tag: string)
    ensures Workload(items, commit, tag) == Normalized(Unreserved(items)) + Identities(commit, tag)
  {
    UnreservedNormalized(items);
  }

  lemma KeptAreAccepted(items: seq<Item>, kubernetes: bool)
    requires Accepted(items, kubernetes)
    ensures forall i | 0 <= i < |Unreserved(items)| :: ItemOk(Unreserved(items)[i], kubernetes)
  {
    UnreservedFacts(items);
  }

  lemma IdentityIsStored(name: Json, value: string)
    requires name.Text? && name.s != ""
    ensures Stored(Identity(name, value)) && !LiteralSecretItem(Identity(name, value))
  {
  }

  lemma WorkloadIsStored(items: seq<Item>, kubernetes: bool, commit: string, tag: string)
    requires Accepted(items, kubernetes)
    ensures forall i | 0 <= i < |Workload(items, commit, tag)| :: Stored(Workload(items, commit, tag)[i])
  {
    WorkloadItems(items, commit, tag);
    KeptAreAccepted(items, kubernetes);
    IdentityIsStored(CommitVariable, commit);
    IdentityIsStored(VersionVariable, tag);
    var kept, env := Unreserved(items), Workload(items, commit, tag);
    forall i | 0 <= i < |env| ensures Stored(env[i]) {
      if i < |kept| {
        NormalizedIsStored(kept[i], kubernetes);
        assert env[i] == NormalizedItem(kept[i]);
      } else {
        assert env[i] == Identities(commit, tag)[i - |kept|];
      }
    }
  }

  lemma WorkloadRefuses(items: seq<Item>, kubernetes: bool, commit: string, tag: string)
    requires Accepted(items, kubernetes)
    ensures var env := Workload(items, commit, tag);
            && ((exists i | 0 <= i < |env| :: ManifestRefuses(env[i])) <==> Refusing(items))
            && ((exists i | 0 <= i < |env| :: HelmRefuses(env[i])) <==> Refusing(items))
  {
    WorkloadItems(items, commit, tag);
    WorkloadIsStored(items, kubernetes, commit, tag);
    KeptAreAccepted(items, kubernetes);
    IdentityIsStored(CommitVariable, commit);
    IdentityIsStored(VersionVariable, tag);
    var kept, env := Unreserved(items), Workload(items, commit, tag);
    forall i | 0 <= i < |env|
      ensures ManifestRefuses(env[i]) <==> HelmRefuses(env[i])
      ensures ManifestRefuses(env[i]) <==> i < |kept| && LiteralSecretItem(kept[i])
    {
      StoredRenders(env[i]);
      if i < |kept| {
        NormalizedIsStored(kept[i], kubernetes);
        assert env[i] == NormalizedItem(kept[i]);
      } else {
        assert env[i] == Identities(commit, tag)[i - |kept|];
      }
    }
    if Refusing(items) {
      var i :| 0 <= i < |kept| && LiteralSecretItem(kept[i]);
      assert ManifestRefuses(env[i]) && HelmRefuses(env[i]);
    }
  }

  lemma WorkloadDescribed(items: seq<Item>, kubernetes: bool, commit: string, tag: string)
    requires Accepted(items, kubernetes)
    ensures var rendered := RenderedAll(Workload(items, commit, tag));
            NamedAll(rendered) == rendered && DescribesAll(Unreserved(items) + Identities(commit, tag), rendered)
  {
    WorkloadItems(items, commit, tag);
    WorkloadIsStored(items, kubernetes, commit, tag);
    KeptAreAccepted(items, kubernetes);
    var kept, env := Unreserved(items), Workload(items, commit, tag);
    StoredRenderAll(env);
    forall i | 0 <= i < |env| ensures Describes((kept + Identities(commit, tag))[i], RenderedAll(env)[i]) {
      assert Describes(env[i], RenderedAll(env)[i]);
      if i < |kept| {
        NormalizedIsStored(kept[i], kubernetes);
        assert env[i] == NormalizedItem(kept[i]);
      } else {
        assert env[i] == Identities(commit, tag)[i - |kept|];
      }
    }
  }

  // For every list the API accepted, in whatever mode, the two renderers refuse together, exactly
  // when a kept item is a literal marked secret; otherwise they return one and the same list, which
  // describes every kept item in order and ends with the two identity variables.
  lemma RenderingIsExact(items: seq<Item>, kubernetes: bool, commit: string, tag: string)
    requires Accepted(items, kubernetes)
    ensures var env := Workload(items, commit, tag);
            && ((exists i | 0 <= i < |env| :: ManifestRefuses(env[i])) <==> Refusing(items))
            && ((exists i | 0 <= i < |env| :: HelmRefuses(env[i])) <==> Refusing(items))
            && NamedAll(RenderedAll(env)) == RenderedAll(env)
            && DescribesAll(Unreserved(items) + Identities(commit, tag), RenderedAll(env))
  {
    WorkloadRefuses(items, kubernetes, commit, tag);
    WorkloadDescribed(items, kubernetes, commit, tag);
  }

  // The rendered environment ends with the commit and the image tag of the build.
  lemma IdentitiesAreRendered(items: seq<Item>, kubernetes: bool, commit: string, tag: string)
    requires Accepted(items, kubernetes)
    ensures var entries := RenderedAll(Workload(items, commit, tag));
            && |entries| == |Unreserved(items)| + 2
            && entries[|entries| - 2] == Value(Text("APP_COMMIT_SHA"), commit)
            && entries[|entries| - 1] == Value(Text("APP_VERSION"), tag)
  {
    WorkloadDescribed(items, kubernetes, commit, tag);
    var all, entries := Unreserved(items) + Identities(commit, tag), RenderedAll(Workload(items, commit, tag));
    var n := |entries|;
    assert Describes(all[n - 2], entries[n - 2]) && Describes(all[n - 1], entries[n - 1]);
    assert all[n - 2] == Identity(CommitVariable, commit) && all[n - 1] == Identity(VersionVariable, tag);
  }

  // What normalising writes: the secrecy of an item as a boolean, true for every reference to a Secret.
  lemma NormalizedWrites(item: Item, field: string)
    requires item.Object?
    ensures var before, after := item.fields, NormalizedItem(item).fields;
            && NormalizedItem(item).Object?
            && (field != "is_secret" ==> Get(after, field) == Get(before, field))
            && Get(after, "is_secret") ==
                 if Get(before, "value_source") == Text("secret_key_ref") then Bool(true)
                 else if "is_secret" in before then Bool(Truthy(before["is_secret"]))
                 else Null
  {
  }

  predicate UniqueNames(entries: seq<Entry>) {
    forall i, j | 0 <= i < j < |entries| :: entries[i].name != entries[j].name
  }

  lemma {:induction false} UnreservedDistinct(items: seq<Item>)
    requires Distinct(items)
    ensures Distinct(Unreserved(items))
  {
    if items != [] {
      var n := |items| - 1;
      UnreservedDistinct(items[..n]);
      UnreservedFacts(items[..n]);
      forall i | 0 <= i < |Unreserved(items[..n])| ensures Name(Unreserved(items[..n])[i]) != Name(items[n]) {
        var k :| 0 <= k < n && items[..n][k] == Unreserved(items[..n])[i];
        assert items[k] == items[..n][k];
      }
    }
  }

  lemma DescribedDistinct(items: seq<Item>, entries: seq<Entry>)
    requires Distinct(items) && DescribesAll(items, entries)
    ensures UniqueNames(entries)
  {
    forall i, j | 0 <= i < j < |entries| ensures entries[i].name != entries[j].name {
      assert Describes(items[i], entries[i]) && Describes(items[j], entries[j]);
    }
  }

  lemma IdentitiesStayDistinct(items: seq<Item>, commit: string, tag: string)
    requires Distinct(items) && forall i | 0 <= i < |items| :: items[i].Object? && !ReservedName(items[i])
    ensures Distinct(items + Identities(commit, tag))
  {
    var all := items + Identities(commit, tag);
    forall i | 0 <= i < |items| ensures all[i] == items[i] && !ReservedName(all[i]) {}
    assert Name(all[|items|]) == CommitVariable && Name(all[|items| + 1]) == VersionVariable;
  }

  // A list accepted for Kubernetes is rendered by both backends without an error, to the same list,
  // complete and in order, and no variable is set twice.
  lemma KubernetesListsRender(items: seq<Item>, commit: string, tag: string)
    requires Accepted(items, true)
    ensures var env := Workload(items, commit, tag);
            && (forall i | 0 <= i < |env| :: !ManifestRefuses(env[i]) && !HelmRefuses(env[i]))
            && NamedAll(RenderedAll(env)) == RenderedAll(env)
            && DescribesAll(Unreserved(items) + Identities(commit, tag), RenderedAll(env))
            && UniqueNames(RenderedAll(env))
  {
    RenderingIsExact(items, true, commit, tag);
    KeptAreAccepted(items, true);
    UnreservedFacts(items);
    UnreservedDistinct(items);
    IdentitiesStayDistinct(Unreserved(items), commit, tag);
    DescribedDistinct(Unreserved(items) + Identities(commit, tag), RenderedAll(Workload(items, commit, tag)));
    assert !Refusing(items);
  }

  /******* References and preflight *******/

  // Distinct source names, in order of first appearance.
  function Referenced(items: seq<Item>, source: Json): seq<string> {
    if items == [] then []
    else
      var n := |items| - 1;
      var front := Referenced(items[..n], source);
      if Refers(items[n], source) && Str(Get(items[n].fields, "source_name")) !in front then
        front + [Str(Get(items[n].fields, "source_name"))]
      else front
  }

  predicate Refers(item: Item, source: Json) {
    item.Object? && Get(item.fields, "value_source") == source && Truthy(Get(item.fields, "source_name"))
  }

  datatype Resource = ConfigMap(name: string) | Secret(name: string) | IngressApi | IngressClass(name: string)

  // What is checked besides the references: a pull secret, and ingress support with its class.
  datatype Cluster = Cluster(pullSecret: Option<string>, ingress: bool, ingressClass: Option<string>)

  function ConfigMaps(names: seq<string>): seq<Resource> {
    seq(|names|, i requires 0 <= i < |names| => ConfigMap(names[i]))
  }

  function Secrets(names: seq<string>): seq<Resource> {
    seq(|names|, i requires 0 <= i < |names| => Secret(names[i]))
  }

  function Pull(c: Cluster): seq<Resource> {
    if c.pullSecret.Some? then [Secret(c.pullSecret.value)] else []
  }

  function Ingress(c: Cluster): seq<Resource> {
    if !c.ingress then []
    else if c.ingressClass.Some? then [IngressApi, IngressClass(c.ingressClass.value)]
    else [IngressApi]
  }

  function Checks(items: seq<Item>, c: Cluster): seq<Resource> {
    ConfigMaps(Referenced(items, FromConfigMap)) + Secrets(Referenced(items, FromSecret)) + Pull(c) + Ingress(c)
  }

  function Missing(checks: seq<Resource>, present: set<Resource>): seq<Resource> {
    if checks == [] then []
    else
      var n := |checks| - 1;
      Missing(checks[..n], present) + if checks[n] in present then [] else [checks[n]]
  }

  lemma {:induction false} MissingIsExact(checks: seq<Resource>, present: set<Resource>)
    ensures forall r :: r in Missing(checks, present) <==> r in checks && r !in present
  {
    if checks != [] {
      var n := |checks| - 1;
      MissingIsExact(checks[..n], present);
      assert checks == checks[..n] + [checks[n]];
    }
  }

  lemma MissingAppend(checks: seq<Resource>, r: Resource, present: set<Resource>)
    ensures Missing(checks + [r], present) == Missing(checks, present) + if r in present then [] else [r]
  {
    assert (checks + [r])[..|checks|] == checks;
  }

  // Looks each resource up and notes the missing ones.
  method CheckEach(rs: seq<Resource>, present: set<Resource>, checked: seq<Resource>, missing: seq<Resource>)
    returns (checked': seq<Resource>, missing': seq<Resource>)
    requires missing == Missing(checked, present)
    ensures checked' == checked + rs && missing' == Missing(checked', present)
  {
    checked', missing' := checked, missing;
    for i := 0 to |rs|
      invariant checked' == checked + rs[..i] && missing' == Missing(checked', present)
    {
      MissingAppend(checked', rs[i], present);
      checked' := checked' + [rs[i]];
      if rs[i] !in present { missing' := missing' + [rs[i]]; }
    }
    assert rs[..|rs|] == rs;
  }

  // Everything is looked up before a missing resource fails the preflight. The references are those
  // of the project's own list, reserved names included.
  method Preflight(items: seq<Item>, c: Cluster, present: set<Resource>)
    returns (checked: seq<Resource>, missing: seq<Resource>)
    ensures checked == Checks(items, c)
    ensures missing == Missing(checked, present)
  {
    var maps := ConfigMaps(Referenced(items, FromConfigMap));
    var secrets := Secrets(Referenced(items, FromSecret));
    checked, missing := CheckEach(maps, present, [], []);
    assert checked == maps;
    checked, missing := CheckEach(secrets, present, checked, missing);
    checked, missing := CheckEach(Pull(c), present, checked, missing);
    checked, missing := CheckEach(Ingress(c), present, checked, missing);
  }

  // Exactly what a preflight looks up: the ConfigMaps and Secrets the items refer to, the pull secret, and
  // with an ingress its API and its class.
  lemma ChecksAreExact(items: seq<Item>, c: Cluster, r: Resource)
    ensures r in Checks(items, c) <==>
              match r
              case ConfigMap(name) =>
                exists i | 0 <= i < |items| :: Refers(items[i], FromConfigMap) && SourceName(items[i]) == name
              case Secret(name) =>
                || c.pullSecret == Some(name)
                || exists i | 0 <= i < |items| :: Refers(items[i], FromSecret) && SourceName(items[i]) == name
              case IngressApi => c.ingress
              case IngressClass(name) => c.ingress && c.ingressClass == Some(name)
  {
    var maps, secrets := Referenced(items, FromConfigMap), Referenced(items, FromSecret);
    ConfigMapsIn(maps, r);
    SecretsIn(secrets, r);
    assert r in Checks(items, c) <==> r in ConfigMaps(maps) || r in Secrets(secrets) || r in Pull(c) || r in Ingress(c);
    if r.ConfigMap? { ReferencedIsExact(items, FromConfigMap); }
    if r.Secret? { ReferencedIsExact(items, FromSecret); }
  }

  lemma ConfigMapsIn(names: seq<string>, r: Resource)
    ensures r in ConfigMaps(names) <==> r.ConfigMap? && r.name in names
  {
    if r.ConfigMap? && r.name in names {
      var k :| 0 <= k < |names| && names[k] == r.name;
      assert ConfigMaps(names)[k] == r;
    }
  }

  lemma SecretsIn(names: seq<string>, r: Resource)
    ensures r in Secrets(names) <==> r.Secret? && r.name in names
  {
    if r.Secret? && r.name in names {
      var k :| 0 <= k < |names| && names[k] == r.name;
      assert Secrets(names)[k] == r;
    }
  }

  function SourceName(item: Item): string
    requires item.Object?
  {
    Str(Get(item.fields, "source_name"))
  }

  lemma {:induction false} ReferencedIsExact(items: seq<Item>, source: Json)
    ensures forall name :: name in Referenced(items, source) <==>
              exists i | 0 <= i < |items| :: Refers(items[i], source) && Str(Get(items[i].fields, "source_name")) == name
  {
    if items != [] {
      var n := |items| - 1;
      ReferencedIsExact(items[..n], source);
      forall name
        ensures name in Referenced(items, source) <==>
                  exists i | 0 <= i < |items| :: Refers(items[i], source) && Str(Get(items[i].fields, "source_name")) == name
      {
        if name in Referenced(items[..n], source) {
          var k :| 0 <= k < n && Refers(items[..n][k], source) && Str(Get(items[..n][k].fields, "source_name")) == name;
          assert Refers(items[k], source);
        }
        if i :| 0 <= i < |items| && Refers(items[i], source) && Str(Get(items[i].fields, "source_name")) == name {
          if i < n { assert items[..n][i] == items[i]; }
        }
      }
    }
  }

  predicate Found(e: Entry, present: set<Resource>) {
    match e
    case Value(_, _) => true
    case ConfigMapKey(_, source, _) => ConfigMap(source) in present
    case SecretKey(_, source, _) => Secret(source) in present
  }

  lemma ReferencesAreChecked(items: seq<Item>, c: Cluster, i: nat, source: Json)
    requires i < |items| && Refers(items[i], source)
    ensures var name := Str(Get(items[i].fields, "source_name"));
            && (source == FromConfigMap ==> ConfigMap(name) in Checks(items, c))
            && (source == FromSecret ==> Secret(name) in Checks(items, c))
  {
    ReferencedIsExact(items, source);
    var names := Referenced(items, source);
    var name := Str(Get(items[i].fields, "source_name"));
    assert name in names;
    var k :| 0 <= k < |names| && names[k] == name;
    if source == FromConfigMap { assert ConfigMaps(names)[k] == ConfigMap(name); }
    if source == FromSecret { assert Secrets(names)[k] == Secret(name); }
  }

  lemma NothingMissing(checks: seq<Resource>, present: set<Resource>)
    requires Missing(checks, present) == []
    ensures forall r | r in checks :: r in present
  {
    MissingIsExact(checks, present);
  }

  // If preflight finds nothing missing, everything the rendered environment refers to was found.
  lemma PreflightCoversRendering(items: seq<Item>, kubernetes: bool, commit: string, tag: string,
                                 c: Cluster, present: set<Resource>)
    requires Accepted(items, kubernetes)
    requires Missing(Checks(Normalized(items), c), present) == []
    ensures forall e | e in RenderedAll(Workload(items, commit, tag)) :: Found(e, present)
  {
    var rendered := RenderedAll(Workload(items, commit, tag));
    WorkloadDescribed(items, kubernetes, commit, tag);
    NothingMissing(Checks(Normalized(items), c), present);
    forall i | 0 <= i < |rendered| ensures Found(rendered[i], present) {
      EntryIsFound(items, kubernetes, commit, tag, i, rendered[i], c, present);
    }
  }

  lemma EntryIsFound(items: seq<Item>, kubernetes: bool, commit: string, tag: string, i: nat, e: Entry,
                     c: Cluster, present: set<Resource>)
    requires Accepted(items, kubernetes) && i < |Unreserved(items)| + 2
    requires Describes((Unreserved(items) + Identities(commit, tag))[i], e)
    requires forall r | r in Checks(Normalized(items), c) :: r in present
    ensures Found(e, present)
  {
    if i < |Unreserved(items)| {
      KeptIsFound(items, kubernetes, i, e, c, present);
    } else {
      LiteralIsFound(Identities(commit, tag)[i - |Unreserved(items)|], e, present);
    }
  }

  lemma LiteralIsFound(item: Item, e: Entry, present: set<Resource>)
    requires item.Object? && Source(item.fields) == Literal && Describes(item, e)
    ensures Found(e, present)
  {
  }

  lemma KeptIsFound(items: seq<Item>, kubernetes: bool, i: nat, e: Entry, c: Cluster, present: set<Resource>)
    requires Accepted(items, kubernetes) && i < |Unreserved(items)| && Describes(Unreserved(items)[i], e)
    requires forall r | r in Checks(Normalized(items), c) :: r in present
    ensures Found(e, present)
  {
    UnreservedFacts(items);
    var item := Unreserved(items)[i];
    var k :| 0 <= k < |items| && items[k] == item;
    assert ItemOk(items[k], kubernetes);
    NormalizedIsStored(item, kubernetes);
    assert Normalized(items)[k] == NormalizedItem(item);
    if e.ConfigMapKey? {
      ReferencesAreChecked(Normalized(items), c, k, FromConfigMap);
    }
    if e.SecretKey? {
      ReferencesAreChecked(Normalized(items), c, k, FromSecret);
    }
  }
}
