/**
  Image references on their way from the registry settings through build, push and verification to
  the Helm chart. worker/services/registry.py, worker/services/image_build.py, worker/helm/values.py.
 */
module ImageReference {
  import opened Basics
  import opened Strings

  datatype StepError =
    | RegistryUrlMissing
    | RegistryReferenceMissing
    | DigestNotReported
    | DigestRequired

  // Username, password and log output are left out.
  datatype Registry = Registry(enabled: bool, url: string, namespace: string)

  predicate Slash(c: char) {
    c == '/'
  }

  // The executor strips its settings when it is constructed.
  function Configured(enabled: bool, url: string, namespace: string): Registry {
    Registry(enabled, StripRight(Strip(url, IsSpace), Slash), Strip(Strip(namespace, IsSpace), Slash))
  }

  // str.isalnum() and str.lower() on one character; lower-casing may yield more than one.
  datatype Unicode = Unicode(isAlnum: char -> bool, lower: char -> string)

  predicate Reserved(c: char) {
    c == '/' || c == ':' || c == '@'
  }

  predicate Unreserved(c: char) {
    !Reserved(c)
  }

  ghost predicate Sane(u: Unicode) {
    forall c :: u.isAlnum(c) ==> All(u.lower(c), Plain)
  }

  predicate ComponentDash(c: char) {
    c == '-'
  }

  function Replaced(value: string, u: Unicode): string {
    if value == "" then ""
    else
      (if u.isAlnum(value[0]) || value[0] in "-_." then u.lower(value[0]) else "-") + Replaced(value[1..], u)
  }

  function SanitizeImageComponent(value: string, u: Unicode): string {
    var stripped := Strip(Replaced(value, u), ComponentDash);
    if stripped == "" then "app" else stripped
  }

  predicate Plain(c: char) {
    Unreserved(c) && !IsSpace(c)
  }

  // Part of a reference: nonempty, without separators or white space.
  predicate Component(s: string) {
    s != "" && All(s, Plain)
  }

  // A fresh tag: the sanitised start of the commit and a random hexadecimal number.
  function TagSuffix(commit: string, uuid: string, u: Unicode): string {
    SanitizeImageComponent(Cut(commit, 12), u) + "-" + uuid
  }

  function RegistryRepository(r: Registry, image: string): string {
    r.url + "/" + (if r.namespace == "" then "" else r.namespace + "/") + image
  }

  // None when the registry is disabled; the build then uses its local tag.
  function RegistryImageRef(r: Registry, image: string, tag: string): Result<Option<string>, StepError> {
    if !r.enabled then Ok(None)
    else if r.url == "" then Err(RegistryUrlMissing)
    else Ok(Some(RegistryRepository(r, image) + ":" + tag))
  }

  /******* Components *******/

  ghost predicate Sanitary(u: Unicode) {
    Sane(u) && u.lower('-') == "-" && u.lower('_') == "_" && u.lower('.') == "."
  }

  lemma {:induction false} ReplacedIsPlain(value: string, u: Unicode)
    requires Sanitary(u)
    ensures All(Replaced(value, u), Plain)
  {
    if value != "" { ReplacedIsPlain(value[1..], u); }
  }

  lemma PartIsPlain(before: string, s: string, after: string)
    requires All(before + s + after, Plain)
    ensures All(s, Plain)
  {
    forall k | 0 <= k < |s| ensures Plain(s[k]) {
      assert (before + s + after)[|before| + k] == s[k];
    }
  }

  lemma AppIsComponent()
    ensures Component("app")
  {
  }

  // Whatever the project is called, its image name and tags are components.
  lemma SanitizedIsComponent(value: string, u: Unicode)
    requires Sanitary(u)
    ensures Component(SanitizeImageComponent(value, u))
  {
    ReplacedIsPlain(value, u);
    var before, after := StripTakes(Replaced(value, u), ComponentDash);
    PartIsPlain(before, Strip(Replaced(value, u), ComponentDash), after);
    AppIsComponent();
  }

  // str.isalnum() and str.lower() as they are on ASCII.
  ghost predicate AsciiTables(u: Unicode) {
    && (forall c: char :: c as int < 128 ==>
          (u.isAlnum(c) <==> Letter(c) || Digit(c) || 'A' <= c <= 'Z'))
    && (forall c: char :: c as int < 128 ==> u.lower(c) == [if 'A' <= c <= 'Z' then 'a' + (c - 'A') else c])
  }

  // What becomes of one character of an image name.
  function Sanitized(c: char): char {
    if 'A' <= c <= 'Z' then 'a' + (c - 'A')
    else if Letter(c) || Digit(c) || c == '-' || c == '_' || c == '.' then c
    else '-'
  }

  lemma {:induction false} ReplacedAscii(value: string, u: Unicode)
    requires AsciiTables(u) && forall k | 0 <= k < |value| :: value[k] as int < 128
    ensures |Replaced(value, u)| == |value|
    ensures forall k | 0 <= k < |value| :: Replaced(value, u)[k] == Sanitized(value[k])
  {
    if value != "" { ReplacedAscii(value[1..], u); }
  }

  // An ASCII name keeps its letters, in lower case, its digits, dashes, underscores and dots; everything
  // else becomes a dash, dashes at the ends go, and nothing left means "app".
  lemma SanitizedAscii(value: string, u: Unicode) returns (first: nat, last: nat)
    requires AsciiTables(u) && forall k | 0 <= k < |value| :: value[k] as int < 128
    ensures first <= last <= |value|
    ensures forall k | 0 <= k < |value| && !(first <= k < last) :: Sanitized(value[k]) == '-'
    ensures first < last ==> Sanitized(value[first]) != '-' && Sanitized(value[last - 1]) != '-'
    ensures var kept := SanitizeImageComponent(value, u);
            if first == last then kept == "app"
            else |kept| == last - first && forall k | first <= k < last :: kept[k - first] == Sanitized(value[k])
  {
    ReplacedAscii(value, u);
    first, last := StripAt(Replaced(value, u), ComponentDash);
  }

  // The tag of a build is a component, for every commit and every hexadecimal random number.
  lemma TagIsComponent(commit: string, uuid: string, u: Unicode)
    requires Sanitary(u) && All(uuid, HexDigit)
    ensures Component(TagSuffix(commit, uuid, u))
  {
    var front := SanitizeImageComponent(Cut(commit, 12), u);
    SanitizedIsComponent(Cut(commit, 12), u);
    var tag := front + "-" + uuid;
    forall k | 0 <= k < |tag| ensures Plain(tag[k]) {
      if k > |front| { assert HexDigit(tag[k]); }
    }
  }

  /******* Push and verification *******/

  predicate HexDigit(c: char) {
    Digit(c) || 'a' <= c <= 'f'
  }

  // sha256:[0-9a-f]{64}
  predicate IsDigest(s: string) {
    |s| == 71 && s[..7] == "sha256:" && All(s[7..], HexDigit)
  }

  // A digest is sha256 and 64 lower-case hexadecimal digits, nothing else.
  lemma DigestSpelled(s: string)
    ensures IsDigest(s) <==> exists hex: string ::
              && |hex| == 64 && s == "sha256:" + hex
              && forall k | 0 <= k < 64 :: '0' <= hex[k] <= '9' || 'a' <= hex[k] <= 'f'
  {
    if IsDigest(s) {
      assert s == "sha256:" + s[7..];
    }
    if hex: string :| |hex| == 64 && s == "sha256:" + hex
                      && forall k | 0 <= k < 64 :: '0' <= hex[k] <= '9' || 'a' <= hex[k] <= 'f' {
      assert s[7..] == hex && s[..7] == "sha256:";
    }
  }

  // rsplit(c, 1)[0], split(c, 1)[0] and partition(c)[2].
  function BeforeLast(s: string, c: char): string {
    if Last(s, c) == -1 then s else s[..Last(s, c)]
  }

  function BeforeFirst(s: string, c: char): string {
    s[..First(s, c)]
  }

  function AfterFirst(s: string, c: char): string {
    if First(s, c) == |s| then "" else s[First(s, c) + 1..]
  }

  datatype Pushed = Skipped(kept: Option<string>) | Pinned(ref: string)

  function Nonempty(s: Option<string>): Option<string> {
    if s == Some("") then None else s
  }

  function Either(s: Option<string>, t: Option<string>): Option<string> {
    if Nonempty(s).Some? then s else t
  }

  predicate Unanimous(digests: seq<string>) {
    digests != [] && forall k | 0 <= k < |digests| :: digests[k] == digests[0]
  }

  // digests are the matches found in the output of docker push.
  method PushImage(r: Registry, tag: Option<string>, ref: Option<string>, digests: seq<string>)
    returns (pushed: Result<Pushed, StepError>)
    requires forall k | 0 <= k < |digests| :: IsDigest(digests[k])
    ensures !r.enabled ==> pushed == Ok(Skipped(Either(ref, tag)))
    ensures r.enabled && Nonempty(ref).None? ==> pushed == Err(RegistryReferenceMissing)
    ensures r.enabled && Nonempty(ref).Some? ==>
              pushed == if Unanimous(digests) then Ok(Pinned(BeforeLast(ref.value, ':') + "@" + digests[0]))
                        else Err(DigestNotReported)
  {
    if !r.enabled {
      return Ok(Skipped(Either(ref, tag)));
    }
    if Nonempty(ref).None? {
      return Err(RegistryReferenceMissing);
    }
    var distinct := set d | d in digests;
    OneDistinct(digests, distinct);
    if |distinct| != 1 {
      return Err(DigestNotReported);
    }
    pushed := Ok(Pinned(BeforeLast(ref.value, ':') + "@" + digests[0]));
  }

  lemma OneDistinct(digests: seq<string>, distinct: set<string>)
    requires distinct == set d | d in digests
    ensures |distinct| == 1 <==> Unanimous(digests)
  {
    if Unanimous(digests) {
      assert distinct == {digests[0]};
    } else if digests != [] {
      var k :| 0 <= k < |digests| && digests[k] != digests[0];
      assert {digests[0], digests[k]} <= distinct;
      if |distinct| == 1 {
        assert distinct - {digests[0]} - {digests[k]} <= distinct;
        assert |{digests[0], digests[k]}| == 2;
        SubsetSmaller({digests[0], digests[k]}, distinct);
      }
    }
  }

  lemma SubsetSmaller(a: set<string>, b: set<string>)
    requires a <= b
    ensures |a| <= |b|
  {
    assert b == a + (b - a);
  }

  // re.fullmatch([^@]+@sha256:[0-9a-f]{64}, ref)
  predicate DigestPinned(ref: string) {
    0 < First(ref, '@') < |ref| && IsDigest(AfterFirst(ref, '@'))
  }

  function VerifyImage(r: Registry, tag: Option<string>, ref: Option<string>): Result<Option<string>, StepError> {
    if !r.enabled then Ok(Either(ref, tag))
    else if Nonempty(ref).None? then Err(RegistryReferenceMissing)
    else if !DigestPinned(ref.value) then Err(DigestRequired)
    else Ok(ref)
  }

  lemma PinnedSplits(repository: string, digest: string)
    requires '@' !in repository && IsDigest(digest)
    ensures BeforeFirst(repository + "@" + digest, '@') == repository
    ensures AfterFirst(repository + "@" + digest, '@') == digest
  {
    FirstAfter(repository, '@', digest);
  }

  // A pushed reference passes verification exactly when its repository is nonempty and free of '@'.
  lemma PinnedVerifies(repository: string, digest: string)
    requires IsDigest(digest)
    ensures DigestPinned(repository + "@" + digest) <==> repository != "" && '@' !in repository
  {
    var ref := repository + "@" + digest;
    if '@' !in repository {
      PinnedSplits(repository, digest);
      FirstAfter(repository, '@', digest);
    } else {
      FirstAbsent(repository, '@');
      FirstInFront(repository, "@" + digest, '@');
      assert repository + ("@" + digest) == ref;
      assert |AfterFirst(ref, '@')| > 71;
    }
  }

  // With the registry enabled exactly the pinned references pass, unchanged; without one the build keeps
  // what it has.
  lemma VerifyIsExact(r: Registry, tag: Option<string>, ref: Option<string>)
    ensures !r.enabled ==> VerifyImage(r, tag, ref) == Ok(if ref in {None, Some("")} then tag else ref)
    ensures r.enabled && ref in {None, Some("")} ==> VerifyImage(r, tag, ref) == Err(RegistryReferenceMissing)
    ensures r.enabled && ref !in {None, Some("")} ==>
              VerifyImage(r, tag, ref) == if IsPinned(ref.value) then Ok(ref) else Err(DigestRequired)
  {
    if ref.Some? {
      if repository, digest :| ref.value == repository + "@" + digest && repository != "" && '@' !in repository
                               && IsDigest(digest) {
        PinnedVerifies(repository, digest);
      }
      if DigestPinned(ref.value) {
        FirstAbsent(ref.value, '@');
        PartitionRestores(ref.value, '@');
        assert ref.value == BeforeFirst(ref.value, '@') + "@" + AfterFirst(ref.value, '@');
      }
    }
  }

  // A nonempty repository without '@', pinned to a SHA-256 digest.
  ghost predicate IsPinned(ref: string) {
    exists repository, digest ::
      ref == repository + "@" + digest && repository != "" && '@' !in repository && IsDigest(digest)
  }

  lemma {:induction false} FirstInFront(a: string, b: string, c: char)
    requires c in a
    ensures First(a + b, c) == First(a, c) < |a|
  {
    if a[0] != c {
      assert (a + b)[1..] == a[1..] + b;
      assert a == [a[0]] + a[1..];
      FirstInFront(a[1..], b, c);
    }
  }

  /******* The Helm chart *******/

  datatype Build = Build(
    imageRef: Option<string>, imageTag: Option<string>, registry: Option<string>, imageName: Option<string>)

  function CleanString(s: Option<string>): Option<string> {
    if s.None? || Strip(s.value, IsSpace) == "" then None else Some(Strip(s.value, IsSpace))
  }

  function SplitTaggedImageRef(ref: string): Option<(string, string)> {
    if Last(ref, ':') <= Last(ref, '/') || Last(ref, ':') == |ref| - 1 then None
    else Some((ref[..Last(ref, ':')], ref[Last(ref, ':') + 1..]))
  }

  function TagOrLatest(tag: Option<string>): string {
    if tag.Some? then tag.value else "latest"
  }

  function ImageRepositoryAndTag(b: Build): (string, string) {
    var ref, tag := CleanString(b.imageRef), TagOrLatest(CleanString(b.imageTag));
    if ref.Some? && '@' in ref.value then (BeforeFirst(ref.value, '@'), tag)
    else if ref.Some? && SplitTaggedImageRef(ref.value).Some? then SplitTaggedImageRef(ref.value).value
    else
      var registry, name := CleanString(b.registry), CleanString(b.imageName);
      if registry.Some? && name.Some? then
        (StripRight(registry.value, Slash) + "/" + StripLeft(name.value, Slash), tag)
      else if name.Some? then (name.value, tag)
      else if ref.Some? then (ref.value, tag)
      else ("", tag)
  }

  datatype Values = Values(repository: string, tag: string, digest: string)

  function ImageValues(b: Build): Values {
    var (repository, tag) := ImageRepositoryAndTag(b);
    Values(repository, tag, AfterFirst(if b.imageRef.Some? then b.imageRef.value else "", '@'))
  }

  // What the chart template runs.
  function ChartImage(v: Values): string {
    v.repository + if v.digest != "" then "@" + v.digest else ":" + v.tag
  }

  predicate IsTag(tag: string) {
    tag != "" && '/' !in tag && ':' !in tag
  }

  lemma SplitRestores(ref: string)
    requires SplitTaggedImageRef(ref).Some?
    ensures var (repository, tag) := SplitTaggedImageRef(ref).value; ref == repository + ":" + tag && IsTag(tag)
  {
    LastAbsent(ref, ':');
    LastAbsent(ref, '/');
    var n := Last(ref, ':');
    assert ref == ref[..n] + ":" + ref[n + 1..];
    assert ref[n + 1..] == ref[Last(ref, '/') + 1..][n - Last(ref, '/')..];
  }

  lemma JoinSplits(repository: string, tag: string)
    requires IsTag(tag)
    ensures SplitTaggedImageRef(repository + ":" + tag) == Some((repository, tag))
  {
    LastBefore(repository, ':', tag);
    SlashBefore(repository, tag);
    var ref := repository + ":" + tag;
    assert ref[..|repository|] == repository && ref[|repository| + 1..] == tag;
  }

  // Splitting a tagged reference is exact: it undoes joining a repository, even one with a registry
  // port, and a nonempty tag without separators, and it accepts nothing else.
  lemma SplitIsExact(ref: string, repository: string, tag: string)
    ensures SplitTaggedImageRef(ref) == Some((repository, tag)) <==> ref == repository + ":" + tag && IsTag(tag)
  {
    if SplitTaggedImageRef(ref).Some? { SplitRestores(ref); }
    if IsTag(tag) { JoinSplits(repository, tag); }
  }

  lemma {:induction false} SlashBefore(repository: string, tag: string)
    requires '/' !in tag
    ensures Last(repository + ":" + tag, '/') < |repository|
  {
    if tag == "" {
      assert repository + ":" + tag == repository + ":";
    } else {
      var n := |tag| - 1;
      var ref := repository + ":" + tag;
      assert ref[..|ref| - 1] == repository + ":" + tag[..n];
      SlashBefore(repository, tag[..n]);
    }
  }

  lemma CleanBare(s: string)
    requires s != "" && Bare(s, IsSpace)
    ensures CleanString(Some(s)) == Some(s)
  {
    StripBare(s, IsSpace);
  }

  lemma DigestValues(b: Build, ref: string)
    requires b.imageRef == Some(ref) && CleanString(b.imageRef) == Some(ref) && '@' in ref
    ensures ImageValues(b).repository == BeforeFirst(ref, '@') && ImageValues(b).digest == AfterFirst(ref, '@')
  {
  }

  lemma TaggedValues(b: Build, ref: string)
    requires b.imageRef == Some(ref) && CleanString(b.imageRef) == Some(ref) && '@' !in ref
    requires SplitTaggedImageRef(ref).Some?
    ensures (ImageValues(b).repository, ImageValues(b).tag) == SplitTaggedImageRef(ref).value
    ensures ImageValues(b).digest == ""
  {
    FirstAbsent(ref, '@');
  }

  lemma PartitionRestores(s: string, c: char)
    requires c in s
    ensures s == BeforeFirst(s, c) + [c] + AfterFirst(s, c)
  {
    FirstAbsent(s, c);
  }

  // The chart runs the build's own reference, whatever else the build says: with a digest by
  // repository and digest, without one by repository and tag.
  lemma ChartRunsReference(b: Build, ref: string)
    requires b.imageRef == Some(ref) && ref != "" && Bare(ref, IsSpace)
    requires if '@' in ref then AfterFirst(ref, '@') != "" else SplitTaggedImageRef(ref).Some?
    ensures ChartImage(ImageValues(b)) == ref
  {
    CleanBare(ref);
    if '@' in ref {
      DigestValues(b, ref);
      PartitionRestores(ref, '@');
    } else {
      TaggedValues(b, ref);
      SplitRestores(ref);
    }
  }

  /******* From the settings to the chart *******/

  lemma StripSlashes(url: string)
    requires Bare(url, IsSpace) && (url != "" ==> url[|url| - 1] != '/')
    ensures StripRight(Strip(url, IsSpace), Slash) == url
  {
    StripBare(url, IsSpace);
  }

  // Settings without outer white space or slashes are used as they are: the reference of an image is its
  // registry, its namespace if there is one, its name and its tag.
  lemma ReferenceSpelled(url: string, namespace: string, image: string, tag: string)
    requires url != "" && Bare(url, IsSpace) && url[|url| - 1] != '/'
    requires Bare(namespace, IsSpace) && Bare(namespace, Slash)
    ensures RegistryImageRef(Configured(true, url, namespace), image, tag)
         == Ok(Some(if namespace == "" then url + "/" + image + ":" + tag
                    else url + "/" + namespace + "/" + image + ":" + tag))
  {
    StripSlashes(url);
    StripBare(namespace, IsSpace);
    StripBare(namespace, Slash);
    assert url + "/" + (namespace + "/") + image == url + "/" + namespace + "/" + image;
    assert url + "/" + "" + image == url + "/" + image;
  }

  predicate Absent(s: Option<string>) {
    s == None || s == Some("")
  }

  // Absent, or written without outer white space or slashes.
  predicate Tidy(s: Option<string>) {
    Absent(s) || (s.value != "" && Bare(s.value, IsSpace) && Bare(s.value, Slash))
  }

  lemma TidyIsClean(s: Option<string>)
    requires Tidy(s)
    ensures CleanString(s) == if Absent(s) then None else s
    ensures !Absent(s) ==> StripLeft(s.value, Slash) == s.value && StripRight(s.value, Slash) == s.value
  {
    if !Absent(s) {
      CleanBare(s.value);
      StripBare(s.value, Slash);
    }
  }

  lemma NameValues(b: Build)
    requires Absent(b.imageRef) && Tidy(b.registry) && Tidy(b.imageName) && !Absent(b.imageName) && Tidy(b.imageTag)
    ensures ImageValues(b).repository ==
              if Absent(b.registry) then b.imageName.value else b.registry.value + "/" + b.imageName.value
    ensures ImageValues(b).tag == if Absent(b.imageTag) then "latest" else b.imageTag.value
    ensures ImageValues(b).digest == ""
  {
    TidyIsClean(b.imageRef);
    TidyIsClean(b.registry);
    TidyIsClean(b.imageName);
    TidyIsClean(b.imageTag);
  }

  // Without a reference the chart runs the registry and the name of the build, or the name alone.
  lemma ChartRunsName(b: Build)
    requires Absent(b.imageRef) && Tidy(b.registry) && Tidy(b.imageName) && !Absent(b.imageName) && Tidy(b.imageTag)
    ensures var name := if Absent(b.registry) then b.imageName.value else b.registry.value + "/" + b.imageName.value;
            ChartImage(ImageValues(b)) == name + ":" + if Absent(b.imageTag) then "latest" else b.imageTag.value
  {
    NameValues(b);
    var name := ImageValues(b).repository;
    assert name + (":" + ImageValues(b).tag) == name + ":" + ImageValues(b).tag;
  }

  lemma ConfiguredUrl(enabled: bool, url: string, namespace: string)
    ensures var r := Configured(enabled, url, namespace);
            r.url != "" ==> !IsSpace(r.url[0])
  {
    var stripped := Strip(url, IsSpace);
    var before, after := StripTakes(url, IsSpace);
    var n := StripRightTakes(stripped, Slash);
  }

  lemma PinnedIsBare(repository: string, digest: string)
    requires repository != "" && !IsSpace(repository[0]) && IsDigest(digest)
    ensures Bare(repository + "@" + digest, IsSpace)
  {
    var ref := repository + "@" + digest;
    assert HexDigit(digest[7..][63]);
    assert ref[0] == repository[0] && ref[|ref| - 1] == digest[7..][63];
  }

  lemma RepositoryShape(r: Registry, image: string)
    requires r.url != "" && '@' !in r.url && '@' !in r.namespace && Component(image)
    ensures var s := RegistryRepository(r, image); s != "" && s[0] == r.url[0] && '@' !in s
  {
  }

  // The whole path, for registries with or without a port: the push keeps exactly the tagged
  // repository, the result verifies, and the chart runs it.
  lemma PinnedPath(enabled: bool, url: string, namespace: string, image: string, tag: string, digest: string, b: Build)
    requires var r := Configured(enabled, url, namespace);
             r.enabled && r.url != "" && '@' !in r.url && '@' !in r.namespace
    requires Component(image) && Component(tag) && IsDigest(digest)
    requires b.imageRef == Some(RegistryRepository(Configured(enabled, url, namespace), image) + "@" + digest)
    ensures var r := Configured(enabled, url, namespace);
            var repository := RegistryRepository(r, image);
            var tagged := repository + ":" + tag;
            && RegistryImageRef(r, image, tag) == Ok(Some(tagged))
            && BeforeLast(tagged, ':') + "@" + digest == b.imageRef.value
            && VerifyImage(r, b.imageTag, b.imageRef) == Ok(b.imageRef)
            && ImageValues(b).repository == repository && ImageValues(b).digest == digest
            && ChartImage(ImageValues(b)) == b.imageRef.value
  {
    var r := Configured(enabled, url, namespace);
    var repository := RegistryRepository(r, image);
    ConfiguredUrl(enabled, url, namespace);
    RepositoryShape(r, image);
    PinnedRepository(repository, tag, digest, b);
  }

  lemma PinnedRepository(repository: string, tag: string, digest: string, b: Build)
    requires repository != "" && !IsSpace(repository[0]) && '@' !in repository && ':' !in tag && IsDigest(digest)
    requires b.imageRef == Some(repository + "@" + digest)
    ensures BeforeLast(repository + ":" + tag, ':') == repository
    ensures DigestPinned(b.imageRef.value)
    ensures ImageValues(b).repository == repository && ImageValues(b).digest == digest
    ensures ChartImage(ImageValues(b)) == b.imageRef.value
  {
    var ref := repository + "@" + digest;
    LastBefore(repository, ':', tag);
    PinnedVerifies(repository, digest);
    PinnedSplits(repository, digest);
    PinnedIsBare(repository, digest);
    CleanBare(ref);
    DigestValues(b, ref);
  }
}
