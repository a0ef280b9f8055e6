/**
  Kubernetes names derived from project names, environments and ids.
  worker/executors/kubernetes/names.py. Inputs are taken after str.lower().
 */
module Names {
  import opened Basics
  import opened Strings

  const MaxLabel := 63
  const MaxRelease := 53
  const ServiceSuffix := "-svc"

  predicate Dash(c: char) {
    c == '-'
  }

  predicate SlugChar(c: char) {
    Alnum(c) || Dash(c)
  }

  predicate Foreign(c: char) {
    !SlugChar(c)
  }

  // re.sub(p+, "-", s): each maximal run of matching characters becomes one dash.
  function ReplaceRuns(s: string, p: char -> bool): string
    decreases |s|
  {
    if s == "" then ""
    else if p(s[0]) then
      var rest := StripLeft(s[1..], p);
      StripLeftShorter(s[1..], p);
      "-" + ReplaceRuns(rest, p)
    else [s[0]] + ReplaceRuns(s[1..], p)
  }

  lemma {:induction false} StripLeftShorter(s: string, p: char -> bool)
    ensures |StripLeft(s, p)| <= |s|
  {
    if s != "" && p(s[0]) { StripLeftShorter(s[1..], p); }
  }

  // The slug before it is bounded.
  function Squeeze(value: string): string {
    Strip(ReplaceRuns(ReplaceRuns(value, Foreign), Dash), Dash)
  }

  function DnsSlug(value: string, fallback: string, max: nat): string {
    var squeezed := Squeeze(value);
    var slug := if squeezed == "" then fallback else squeezed;
    var cut := StripRight(Cut(slug, max), Dash);
    if cut == "" then Cut(fallback, max) else cut
  }

  /******* What a slug is *******/

  predicate NoDouble(s: string) {
    forall k | 0 < k < |s| :: !(s[k - 1] == '-' && s[k] == '-')
  }

  // Words of letters and digits with single dashes between them.
  predicate Clean(s: string) {
    All(s, SlugChar) && Bare(s, Dash) && NoDouble(s)
  }

  // The maximal words of letters and digits, in order.
  function Words(s: string): (ws: seq<string>)
    ensures s != "" && Alnum(s[0]) ==> ws != []
  {
    if s == "" then []
    else if !Alnum(s[0]) then Words(s[1..])
    else if |s| == 1 || !Alnum(s[1]) then [[s[0]]] + Words(s[1..])
    else
      var ws := Words(s[1..]);
      [[s[0]] + ws[0]] + ws[1..]
  }

  function Joined(ws: seq<string>): string {
    if ws == [] then "" else if |ws| == 1 then ws[0] else ws[0] + "-" + Joined(ws[1..])
  }

  lemma {:induction false} StripLeftKeepsWords(s: string, p: char -> bool)
    requires forall c :: p(c) ==> !Alnum(c)
    ensures Words(StripLeft(s, p)) == Words(s)
  {
    if s != "" && p(s[0]) { StripLeftKeepsWords(s[1..], p); }
  }

  lemma {:induction false} StripRightKeepsWords(s: string, p: char -> bool)
    requires forall c :: p(c) ==> !Alnum(c)
    ensures Words(StripRight(s, p)) == Words(s)
  {
    if s != "" && p(s[|s| - 1]) {
      StripRightKeepsWords(s[..|s| - 1], p);
      LastCharLost(s);
    }
  }

  lemma {:induction false} LastCharLost(s: string)
    requires s != "" && !Alnum(s[|s| - 1])
    ensures Words(s[..|s| - 1]) == Words(s)
  {
    if |s| == 1 {
      assert s[1..] == "" && s[..0] == "";
    } else {
      LastCharLost(s[1..]);
      var front := s[..|s| - 1];
      assert front[1..] == s[1..][..|s| - 2];
    }
  }

  lemma {:induction false} ReplaceRunsKeepsWords(s: string, p: char -> bool)
    requires forall c :: p(c) ==> !Alnum(c)
    ensures Words(ReplaceRuns(s, p)) == Words(s)
    ensures ReplaceRuns(s, p) == "" <==> s == ""
    ensures s != "" ==> (Alnum(ReplaceRuns(s, p)[0]) <==> Alnum(s[0]))
                        && (Alnum(s[0]) ==> ReplaceRuns(s, p)[0] == s[0])
    decreases |s|
  {
    if s != "" {
      if p(s[0]) {
        var rest := StripLeft(s[1..], p);
        StripLeftShorter(s[1..], p);
        ReplaceRunsKeepsWords(rest, p);
        StripLeftKeepsWords(s[1..], p);
        assert ("-" + ReplaceRuns(rest, p))[1..] == ReplaceRuns(rest, p);
      } else {
        ReplaceRunsKeepsWords(s[1..], p);
        assert ([s[0]] + ReplaceRuns(s[1..], p))[1..] == ReplaceRuns(s[1..], p);
      }
    }
  }

  lemma {:induction false} ForeignRunsGo(s: string)
    ensures All(ReplaceRuns(s, Foreign), SlugChar)
    decreases |s|
  {
    if s != "" {
      if Foreign(s[0]) {
        StripLeftShorter(s[1..], Foreign);
        ForeignRunsGo(StripLeft(s[1..], Foreign));
      } else {
        ForeignRunsGo(s[1..]);
      }
    }
  }

  lemma {:induction false} DashRunsGo(s: string)
    requires All(s, SlugChar)
    ensures All(ReplaceRuns(s, Dash), SlugChar) && NoDouble(ReplaceRuns(s, Dash))
    ensures s != "" && !Dash(s[0]) ==> ReplaceRuns(s, Dash) != "" && !Dash(ReplaceRuns(s, Dash)[0])
    decreases |s|
  {
    if s != "" {
      if Dash(s[0]) {
        var n := StripLeftTakes(s[1..], Dash);
        DashRunsGo(StripLeft(s[1..], Dash));
      } else {
        DashRunsGo(s[1..]);
      }
    }
  }

  lemma SqueezeIsClean(value: string)
    ensures Clean(Squeeze(value)) && Words(Squeeze(value)) == Words(value)
  {
    var once := ReplaceRuns(value, Foreign);
    var twice := ReplaceRuns(once, Dash);
    ForeignRunsGo(value);
    DashRunsGo(once);
    ReplaceRunsKeepsWords(value, Foreign);
    ReplaceRunsKeepsWords(once, Dash);
    StripLeftKeepsWords(twice, Dash);
    StripRightKeepsWords(StripLeft(twice, Dash), Dash);
    var before, after := StripTakes(twice, Dash);
    var n := |before|;
    forall k | 0 <= k < |Squeeze(value)| ensures Squeeze(value)[k] == twice[n + k] {}
    forall k | 0 < k < |Squeeze(value)| ensures !(Squeeze(value)[k - 1] == '-' && Squeeze(value)[k] == '-') {
      assert Squeeze(value)[k - 1] == twice[n + k - 1] && Squeeze(value)[k] == twice[n + k];
    }
  }

  lemma JoinedGrows(c: char, ws: seq<string>)
    requires ws != []
    ensures Joined([[c] + ws[0]] + ws[1..]) == [c] + Joined(ws)
  {
    var longer := [[c] + ws[0]] + ws[1..];
    if |ws| > 1 {
      assert longer[1..] == ws[1..];
      assert [c] + ws[0] + "-" + Joined(ws[1..]) == [c] + (ws[0] + "-" + Joined(ws[1..]));
    }
  }

  // A clean string, perhaps with one dash before it, is its words joined.
  lemma {:induction false} CleanIsJoined(s: string)
    requires All(s, SlugChar) && NoDouble(s) && (s != "" ==> !Dash(s[|s| - 1]))
    ensures if s != "" && Dash(s[0]) then s == "-" + Joined(Words(s)) && Words(s) != [] else s == Joined(Words(s))
  {
    if |s| == 1 {
      assert s == [s[0]];
    } else if |s| > 1 {
      var c, rest := s[0], s[1..];
      var ws := Words(rest);
      CleanIsJoined(rest);
      assert s == [c] + rest;
      if Alnum(c) {
        if Alnum(s[1]) {
          JoinedGrows(c, ws);
        } else {
          assert ([[c]] + ws)[1..] == ws;
          assert [c] + ("-" + Joined(ws)) == [c] + "-" + Joined(ws);
        }
      }
    }
  }

  // The two regular expressions and the strip amount to joining the words of letters and digits.
  lemma SqueezeJoinsWords(value: string)
    ensures Squeeze(value) == Joined(Words(value))
  {
    SqueezeIsClean(value);
    CleanIsJoined(Squeeze(value));
  }

  /******* Bounded slugs *******/

  lemma SqueezeKeepsClean(s: string)
    requires Clean(s)
    ensures Squeeze(s) == s
  {
    SqueezeJoinsWords(s);
    CleanIsJoined(s);
  }

  // Bounding a clean string and dropping the dash the bound may expose.
  lemma CutClean(s: string, n: nat)
    requires Clean(s) && s != "" && n >= 1
    ensures var cut := StripRight(Cut(s, n), Dash);
            Clean(cut) && cut != "" && |cut| <= n && cut <= s && (|s| <= n ==> cut == s)
  {
    var t := Cut(s, n);
    var m := StripRightTakes(t, Dash);
    StripRightKeepsHead(t, Dash);
    if |s| <= n { StripBare(s, Dash); }
  }

  lemma SlugOfClean(s: string, fallback: string, max: nat)
    requires Clean(s) && s != "" && max >= 1
    ensures DnsSlug(s, fallback, max) == StripRight(Cut(s, max), Dash)
    ensures |s| <= max ==> DnsSlug(s, fallback, max) == s
  {
    SqueezeKeepsClean(s);
    CutClean(s, max);
  }

  // A slug is clean, bounded and never empty: the words of its input joined by dashes, cut to size.
  lemma SlugShape(value: string, fallback: string, max: nat)
    requires Clean(fallback) && fallback != "" && max >= 1
    ensures var slug := DnsSlug(value, fallback, max);
            && Clean(slug) && slug != "" && |slug| <= max
            && slug <= (if Words(value) == [] then fallback else Joined(Words(value)))
            && (0 < |Joined(Words(value))| <= max ==> slug == Joined(Words(value)))
  {
    SqueezeIsClean(value);
    SqueezeJoinsWords(value);
    var squeezed := Squeeze(value);
    CutClean(if squeezed == "" then fallback else squeezed, max);
  }

  // Slugging a slug again, under the same or a larger bound, changes nothing.
  lemma SlugIdempotent(value: string, fallback: string, max: nat, fallback': string, max': nat)
    requires Clean(fallback) && fallback != "" && 1 <= max <= max'
    ensures DnsSlug(DnsSlug(value, fallback, max), fallback', max') == DnsSlug(value, fallback, max)
  {
    SlugShape(value, fallback, max);
    SlugOfClean(DnsSlug(value, fallback, max), fallback', max');
  }

  /******* Ids in names *******/

  // A missing or zero id gives "unknown"; digits need no further sanitising.
  function IdSuffix(id: Option<nat>, max: nat): string {
    var raw := if id.None? || id.value == 0 then "" else Decimal(id.value);
    StripRight(if Cut(raw, max) == "" then "unknown" else Cut(raw, max), Dash)
  }

  lemma SuffixShape(id: Option<nat>, max: nat)
    requires max >= 7
    ensures var s := IdSuffix(id, max); 1 <= |s| <= max && All(s, Alnum)
    ensures id.Some? && id.value > 0 ==> IdSuffix(id, max) == Cut(Decimal(id.value), max)
  {
    var raw := if id.None? || id.value == 0 then "" else Decimal(id.value);
    var s := if Cut(raw, max) == "" then "unknown" else Cut(raw, max);
    assert All(s, Alnum);
    StripBare(s, Dash);
  }

  lemma SuffixWithin(id: nat, max: nat)
    requires max >= 7 && 0 < id < Pow10(max)
    ensures IdSuffix(Some(id), max) == Decimal(id)
  {
    SuffixShape(Some(id), max);
    DecimalLength(id, max);
  }

  // What follows the last dash identifies the id.
  lemma SuffixRecovers(front: string, a: nat, front': string, b: nat, max: nat)
    requires max >= 7 && 0 < a < Pow10(max) && 0 < b < Pow10(max)
    requires front + "-" + IdSuffix(Some(a), max) == front' + "-" + IdSuffix(Some(b), max)
    ensures a == b
  {
    var s, t := IdSuffix(Some(a), max), IdSuffix(Some(b), max);
    SuffixShape(Some(a), max);
    SuffixShape(Some(b), max);
    assert '-' !in s && '-' !in t;
    LastBefore(front, '-', s);
    LastBefore(front', '-', t);
    assert (front + "-" + s)[|front| + 1..] == s && (front' + "-" + t)[|front'| + 1..] == t;
    SuffixWithin(a, max);
    SuffixWithin(b, max);
    DecimalInjective(a, b);
  }

  // One zero more than the bound allows makes no difference.
  lemma SuffixCollides(max: nat)
    requires max >= 7
    ensures IdSuffix(Some(Pow10(max - 1)), max) == IdSuffix(Some(Pow10(max)), max)
    ensures 0 < Pow10(max - 1) < Pow10(max)
  {
    PowersPositive(max - 1);
    var n := Pow10(max - 1);
    DecimalLength(n, max);
    DecimalLength(n, max - 1);
    SuffixShape(Some(n), max);
    SuffixShape(Some(Pow10(max)), max);
    assert Decimal(10 * n) == Decimal(n) + [DigitChar(0)];
    assert (Decimal(n) + [DigitChar(0)])[..max] == Decimal(n);
  }

  lemma {:induction false} PowersPositive(k: nat)
    ensures Pow10(k) >= 1
  {
    if k > 0 { PowersPositive(k - 1); }
  }

  /******* Manifest names *******/

  function AtLeastOne(n: int): nat {
    if n < 1 then 1 else n
  }

  function WorkloadName(name: string, max: nat): string {
    DnsSlug(name, "app", max)
  }

  function ManifestRoom(suffix: string): nat {
    AtLeastOne(MaxLabel - |ServiceSuffix| - (|"paas"| + |suffix| + 2))
  }

  function ManifestDeploymentName(name: string, id: Option<nat>): string {
    var suffix := IdSuffix(id, 20);
    "paas-" + WorkloadName(name, ManifestRoom(suffix)) + "-" + suffix
  }

  function ManifestServiceName(name: string, id: Option<nat>): string {
    ManifestDeploymentName(name, id) + ServiceSuffix
  }

  // 10^20 and 10^12: the ids whose digits the manifest and release suffixes keep.
  const ManifestIds: nat := 100_000_000_000_000_000_000
  const ProjectIds: nat := 1_000_000_000_000

  lemma PowersOfTen()
    ensures Pow10(20) == ManifestIds && Pow10(12) == ProjectIds
  {
  }

  lemma PaasLabel(middle: string, suffix: string)
    requires All(middle, SlugChar) && All(suffix, Alnum) && suffix != ""
    requires |middle| + |suffix| <= 57
    ensures Label("paas-" + middle + "-" + suffix)
  {
  }

  // Both manifest names are labels, and the Service name always fits beside the Deployment name.
  lemma ManifestNamesAreLabels(name: string, id: Option<nat>)
    ensures Label(ManifestDeploymentName(name, id)) && Label(ManifestServiceName(name, id))
  {
    var suffix := IdSuffix(id, 20);
    SuffixShape(id, 20);
    var room := ManifestRoom(suffix);
    assert Clean("app");
    SlugShape(name, "app", room);
    PaasLabel(WorkloadName(name, room), suffix);
    var s := ManifestServiceName(name, id);
    forall k | 0 <= k < |s| ensures Alnum(s[k]) || s[k] == '-' {
      if k < |ManifestDeploymentName(name, id)| { assert s[k] == ManifestDeploymentName(name, id)[k]; }
    }
  }

  lemma ManifestNamesDiffer(name: string, a: nat, name': string, b: nat)
    requires 0 < a < ManifestIds && 0 < b < ManifestIds && a != b
    ensures ManifestDeploymentName(name, Some(a)) != ManifestDeploymentName(name', Some(b))
  {
    PowersOfTen();
    if ManifestDeploymentName(name, Some(a)) == ManifestDeploymentName(name', Some(b)) {
      var s, t := IdSuffix(Some(a), 20), IdSuffix(Some(b), 20);
      SuffixRecovers("paas-" + WorkloadName(name, ManifestRoom(s)), a, "paas-" + WorkloadName(name', ManifestRoom(t)), b, 20);
    }
  }

  ghost predicate ManifestSeparates(limit: nat) {
    forall name, name', a: nat, b: nat | 0 < a < b <= limit ::
      ManifestDeploymentName(name, Some(a)) != ManifestDeploymentName(name', Some(b))
  }

  // Attempts are told apart by name, whatever the project names, exactly for ids below 10^20.
  lemma ManifestNamesSeparate(limit: nat)
    ensures ManifestSeparates(limit) <==> limit < ManifestIds
  {
    PowersOfTen();
    if limit < ManifestIds {
      forall name, name', a: nat, b: nat | 0 < a < b <= limit
        ensures ManifestDeploymentName(name, Some(a)) != ManifestDeploymentName(name', Some(b))
      {
        ManifestNamesDiffer(name, a, name', b);
      }
    } else {
      SuffixCollides(20);
      assert ManifestDeploymentName("", Some(Pow10(19))) == ManifestDeploymentName("", Some(Pow10(20)));
    }
  }

  /******* Helm release names *******/

  function EnvironmentSlug(environment: string): string {
    DnsSlug(environment, "production", MaxLabel)
  }

  function ReleaseRoom(environment: string, suffix: string): nat {
    AtLeastOne(MaxRelease - (|"paas"| + |EnvironmentSlug(environment)| + |suffix| + 3))
  }

  function ReleaseProject(name: string, environment: string, suffix: string): string {
    DnsSlug(WorkloadName(name, MaxLabel), "app", ReleaseRoom(environment, suffix))
  }

  function Assembled(slug: string, environment: string, suffix: string): string {
    "paas-" + slug + "-" + environment + "-" + suffix
  }

  // Before the final bound.
  function ReleaseParts(name: string, environment: string, suffix: string): string {
    Assembled(ReleaseProject(name, environment, suffix), EnvironmentSlug(environment), suffix)
  }

  function HelmReleaseName(name: string, environment: string, project: Option<nat>): string {
    StripRight(Cut(ReleaseParts(name, environment, IdSuffix(project, 12)), MaxRelease), Dash)
  }

  lemma ReleaseProjectShape(name: string, environment: string, suffix: string)
    ensures var slug, room := ReleaseProject(name, environment, suffix), ReleaseRoom(environment, suffix);
            && Clean(slug) && 1 <= |slug| <= room
            && slug == StripRight(Cut(WorkloadName(name, MaxLabel), room), Dash)
            && (|WorkloadName(name, MaxLabel)| <= room ==> slug == WorkloadName(name, MaxLabel))
  {
    assert Clean("app");
    SlugShape(name, "app", MaxLabel);
    SlugOfClean(WorkloadName(name, MaxLabel), "app", ReleaseRoom(environment, suffix));
    CutClean(WorkloadName(name, MaxLabel), ReleaseRoom(environment, suffix));
  }

  lemma EnvironmentSlugShape(environment: string)
    ensures Clean(EnvironmentSlug(environment)) && 1 <= |EnvironmentSlug(environment)| <= MaxLabel
  {
    assert Clean("production");
    SlugShape(environment, "production", MaxLabel);
  }

  // Every release name is a label of at most 53 characters.
  lemma ReleaseNamesFit(name: string, environment: string, project: Option<nat>)
    ensures var s := HelmReleaseName(name, environment, project); Label(s) && |s| <= 53
  {
    var suffix := IdSuffix(project, 12);
    SuffixShape(project, 12);
    EnvironmentSlugShape(environment);
    ReleaseProjectShape(name, environment, suffix);
    AssembledShape(ReleaseProject(name, environment, suffix), EnvironmentSlug(environment), suffix);
    BoundedIsLabel(ReleaseParts(name, environment, suffix));
  }

  lemma AssembledShape(slug: string, environment: string, suffix: string)
    requires All(slug, SlugChar) && All(environment, SlugChar) && All(suffix, Alnum)
    ensures var s := Assembled(slug, environment, suffix); All(s, SlugChar) && s != "" && Letter(s[0])
  {
    assert All("paas-" + slug + "-", SlugChar);
    assert All("-" + suffix, SlugChar);
    assert All(("paas-" + slug + "-") + environment + ("-" + suffix), SlugChar);
  }

  lemma BoundedIsLabel(whole: string)
    requires All(whole, SlugChar) && whole != "" && Letter(whole[0])
    ensures var s := StripRight(Cut(whole, MaxRelease), Dash); Label(s) && |s| <= 53
  {
    var m := StripRightTakes(Cut(whole, MaxRelease), Dash);
    StripRightKeepsHead(Cut(whole, MaxRelease), Dash);
  }

  // Nothing is cut off the end of the name when the environment and the id leave room.
  lemma ReleaseUncut(name: string, environment: string, project: Option<nat>)
    requires |EnvironmentSlug(environment)| + |IdSuffix(project, 12)| <= 45
    ensures HelmReleaseName(name, environment, project) == ReleaseParts(name, environment, IdSuffix(project, 12))
  {
    var suffix := IdSuffix(project, 12);
    SuffixShape(project, 12);
    ReleaseProjectShape(name, environment, suffix);
    var whole := ReleaseParts(name, environment, suffix);
    AssembledRecovers(ReleaseProject(name, environment, suffix), EnvironmentSlug(environment), suffix);
    assert whole[|whole| - 1] == suffix[|suffix| - 1];
    StripBare(whole, Dash);
  }

  // Then the name spells out its three parts, with the project part bounded to what is left.
  lemma ReleaseSpelled(name: string, environment: string, project: Option<nat>, slug: string)
    requires var taken := |EnvironmentSlug(environment)| + |IdSuffix(project, 12)|;
             taken <= 45 && slug == StripRight(Cut(WorkloadName(name, MaxLabel), 46 - taken), Dash)
    ensures HelmReleaseName(name, environment, project)
         == Assembled(slug, EnvironmentSlug(environment), IdSuffix(project, 12))
  {
    ReleaseUncut(name, environment, project);
    ReleaseProjectShape(name, environment, IdSuffix(project, 12));
  }

  lemma WorkloadNameShape(name: string)
    ensures var slug := WorkloadName(name, MaxLabel);
            Clean(slug) && 1 <= |slug| <= 63 && StripRight(slug, Dash) == slug
  {
    assert Clean("app");
    SlugShape(name, "app", MaxLabel);
    StripBare(WorkloadName(name, MaxLabel), Dash);
  }

  lemma ReleaseRoomy(name: string, environment: string, project: Option<nat>)
    requires |WorkloadName(name, MaxLabel)| + |EnvironmentSlug(environment)| + |IdSuffix(project, 12)| <= 46
    ensures HelmReleaseName(name, environment, project)
         == Assembled(WorkloadName(name, MaxLabel), EnvironmentSlug(environment), IdSuffix(project, 12))
  {
    WorkloadNameShape(name);
    ReleaseSpelled(name, environment, project, WorkloadName(name, MaxLabel));
  }

  /******* Names spelled out *******/

  // While everything fits, the words of the project name and the whole id.
  lemma ManifestNamesSpelled(name: string, id: nat)
    requires 0 < id < ManifestIds && 0 < |Joined(Words(name))| && |Joined(Words(name))| + |Decimal(id)| <= 53
    ensures ManifestDeploymentName(name, Some(id)) == "paas-" + Joined(Words(name)) + "-" + Decimal(id)
    ensures ManifestServiceName(name, Some(id)) == "paas-" + Joined(Words(name)) + "-" + Decimal(id) + "-svc"
  {
    PowersOfTen();
    SuffixWithin(id, 20);
    assert Clean("app");
    SlugShape(name, "app", ManifestRoom(Decimal(id)));
  }

  lemma FallbacksAreClean()
    ensures Clean("app") && Clean("production")
  {
  }

  lemma ReleaseNamesSpelled(name: string, environment: string, project: nat)
    requires 0 < project < ProjectIds && 0 < |Joined(Words(name))| && 0 < |Joined(Words(environment))|
    requires |Joined(Words(name))| + |Joined(Words(environment))| + |Decimal(project)| <= 46
    ensures HelmReleaseName(name, environment, Some(project))
         == "paas-" + Joined(Words(name)) + "-" + Joined(Words(environment)) + "-" + Decimal(project)
  {
    assert IdSuffix(Some(project), 12) == Decimal(project) by {
      PowersOfTen();
      SuffixWithin(project, 12);
    }
    FallbacksAreClean();
    SlugShape(name, "app", MaxLabel);
    SlugShape(environment, "production", MaxLabel);
    ReleaseRoomy(name, environment, Some(project));
  }

  lemma EmptySlug(fallback: string, max: nat)
    requires Clean(fallback) && 0 < |fallback| <= max
    ensures DnsSlug("", fallback, max) == fallback
  {
    SqueezeJoinsWords("");
    StripBare(fallback, Dash);
  }

  lemma MissingSuffix(max: nat)
    requires max >= 7
    ensures IdSuffix(None, max) == "unknown"
  {
    StripBare("unknown", Dash);
  }

  // Stand-ins for what is missing.
  lemma MissingPartsSpelled()
    ensures ManifestDeploymentName("", None) == "paas-" + "app" + "-" + "unknown"
    ensures HelmReleaseName("", "", None) == "paas-" + "app" + "-" + "production" + "-" + "unknown"
  {
    FallbacksAreClean();
    MissingSuffix(20);
    MissingSuffix(12);
    EmptySlug("app", ManifestRoom(IdSuffix(None, 20)));
    EmptySlug("app", MaxLabel);
    EmptySlug("production", MaxLabel);
    ReleaseRoomy("", "", None);
  }

  lemma ReleaseNamesDiffer(name: string, environment: string, a: nat, name': string, environment': string, b: nat)
    requires 0 < a < ProjectIds && 0 < b < ProjectIds && a != b
    requires |EnvironmentSlug(environment)| + |IdSuffix(Some(a), 12)| <= 45
    requires |EnvironmentSlug(environment')| + |IdSuffix(Some(b), 12)| <= 45
    ensures HelmReleaseName(name, environment, Some(a)) != HelmReleaseName(name', environment', Some(b))
  {
    PowersOfTen();
    ReleaseUncut(name, environment, Some(a));
    ReleaseUncut(name', environment', Some(b));
    var s, t := IdSuffix(Some(a), 12), IdSuffix(Some(b), 12);
    if ReleaseParts(name, environment, s) == ReleaseParts(name', environment', t) {
      SuffixRecovers("paas-" + ReleaseProject(name, environment, s) + "-" + EnvironmentSlug(environment), a,
                     "paas-" + ReleaseProject(name', environment', t) + "-" + EnvironmentSlug(environment'), b, 12);
    }
  }

  ghost predicate ReleasesSeparate(environment: string) {
    forall name, name', a: nat, b: nat | 0 < a < b < ProjectIds ::
      HelmReleaseName(name, environment, Some(a)) != HelmReleaseName(name', environment, Some(b))
  }

  lemma NextDigit(n: nat, d: nat)
    requires n > 0 && d < 10
    ensures Decimal(10 * n + d) == Decimal(n) + [DigitChar(d)]
  {
    assert (10 * n + d) / 10 == n && (10 * n + d) % 10 == d;
  }

  lemma PowersStep(k: nat)
    requires k >= 2
    ensures 1 <= Pow10(k - 2) && Pow10(k - 1) == 10 * Pow10(k - 2) && Pow10(k) == 100 * Pow10(k - 2)
  {
    PowersPositive(k - 2);
  }

  lemma NextSuffix(id: nat, n: nat, d: nat, max: nat)
    requires max >= 7 && n > 0 && d < 10 && id == 10 * n + d && id < Pow10(max)
    ensures IdSuffix(Some(id), max) == Decimal(n) + [DigitChar(d)]
  {
    NextDigit(n, d);
    SuffixWithin(id, max);
  }

  lemma DigitsOfPower(n: nat, k: nat)
    requires k >= 1 && n == Pow10(k)
    ensures |Decimal(n)| == k + 1
  {
    DecimalLength(n, k + 1);
    DecimalLength(n, k);
    PowersPositive(k);
  }

  // Two neighbouring ids of max digits.
  lemma Neighbours(max: nat) returns (a: nat, b: nat, digits: string)
    requires max >= 7
    ensures 0 < a < b < Pow10(max) && |digits| == max - 1
    ensures IdSuffix(Some(a), max) == digits + [DigitChar(0)]
    ensures IdSuffix(Some(b), max) == digits + [DigitChar(1)]
  {
    var n := Pow10(max - 2);
    PowersStep(max);
    DigitsOfPower(n, max - 2);
    a, b, digits := 10 * n, 10 * n + 1, Decimal(n);
    NextSuffix(a, n, 0, max);
    NextSuffix(b, n, 1, max);
  }

  lemma CutCollides(front: string, c: char, d: char, n: nat)
    requires |front| >= n
    ensures Cut(front + [c], n) == Cut(front + [d], n)
  {
    assert (front + [c])[..n] == front[..n] == (front + [d])[..n];
  }

  lemma LongEnvironmentCollides(environment: string) returns (a: nat, b: nat)
    requires |EnvironmentSlug(environment)| >= 34
    ensures 0 < a < b < Pow10(12)
    ensures HelmReleaseName("a", environment, Some(a)) == HelmReleaseName("a", environment, Some(b))
  {
    var digits;
    a, b, digits := Neighbours(12);
    var c, d := DigitChar(0), DigitChar(1);
    var slug := ReleaseProject("a", environment, digits + [c]);
    ReleaseProjectShape("a", environment, digits + [c]);
    AssembledCollides(slug, EnvironmentSlug(environment), digits, c, d);
  }

  lemma AssembledCollides(slug: string, environment: string, digits: string, c: char, d: char)
    requires |slug| >= 1 && |environment| >= 34 && |digits| == 11
    ensures Cut(Assembled(slug, environment, digits + [c]), 53) == Cut(Assembled(slug, environment, digits + [d]), 53)
  {
    var front := Assembled(slug, environment, digits);
    assert Assembled(slug, environment, digits + [c]) == front + [c];
    assert Assembled(slug, environment, digits + [d]) == front + [d];
    CutCollides(front, c, d, 53);
  }

  // Within one environment, release names tell all projects with ids below 10^12 apart exactly when
  // the slug of the environment has at most 33 characters.
  lemma ReleasesSeparateProjects(environment: string)
    ensures ReleasesSeparate(environment) <==> |EnvironmentSlug(environment)| <= 33
  {
    if |EnvironmentSlug(environment)| <= 33 {
      forall name, name', a: nat, b: nat | 0 < a < b < ProjectIds
        ensures HelmReleaseName(name, environment, Some(a)) != HelmReleaseName(name', environment, Some(b))
      {
        SuffixShape(Some(a), 12);
        SuffixShape(Some(b), 12);
        ReleaseNamesDiffer(name, environment, a, name', environment, b);
      }
    } else {
      PowersOfTen();
      var a, b := LongEnvironmentCollides(environment);
    }
  }

  /******* Environments of one project *******/

  function Repeat(c: char, n: nat): (s: string)
    ensures |s| == n && forall k | 0 <= k < n :: s[k] == c
  {
    if n == 0 then "" else Repeat(c, n - 1) + [c]
  }

  ghost predicate EnvironmentsSeparate(project: nat, names: nat, environments: nat) {
    forall name, e, e' | |WorkloadName(name, MaxLabel)| <= names && |EnvironmentSlug(e)| <= environments
                         && |EnvironmentSlug(e')| <= environments && EnvironmentSlug(e) != EnvironmentSlug(e') ::
      HelmReleaseName(name, e, Some(project)) != HelmReleaseName(name, e', Some(project))
  }

  // With room for the whole project slug, the environment can be read off the name.
  lemma EnvironmentReadable(name: string, e: string, e': string, project: nat)
    requires var n := |WorkloadName(name, MaxLabel)| + |IdSuffix(Some(project), 12)|;
             n + |EnvironmentSlug(e)| <= 46 && n + |EnvironmentSlug(e')| <= 46
    requires HelmReleaseName(name, e, Some(project)) == HelmReleaseName(name, e', Some(project))
    ensures EnvironmentSlug(e) == EnvironmentSlug(e')
  {
    ReleaseRoomy(name, e, Some(project));
    ReleaseRoomy(name, e', Some(project));
    AssembledInjective(WorkloadName(name, MaxLabel), EnvironmentSlug(e), EnvironmentSlug(e'), IdSuffix(Some(project), 12));
  }

  lemma AssembledInjective(slug: string, e: string, e': string, suffix: string)
    requires Assembled(slug, e, suffix) == Assembled(slug, e', suffix)
    ensures e == e'
  {
    AssembledRecovers(slug, e, suffix);
    AssembledRecovers(slug, e', suffix);
  }

  lemma AssembledRecovers(slug: string, environment: string, suffix: string)
    ensures var whole := Assembled(slug, environment, suffix);
            |whole| == |slug| + |environment| + |suffix| + 7
            && whole[|slug| + 6..|whole| - |suffix| - 1] == environment
  {
    var front := "paas-" + slug + "-";
    assert Assembled(slug, environment, suffix) == front + environment + ("-" + suffix);
  }

  lemma CleanName(a: string)
    requires Clean(a) && 1 <= |a| <= 50
    ensures Clean(a + "-z") && WorkloadName(a + "-z", MaxLabel) == a + "-z"
  {
    var name := a + "-z";
    forall k | 0 < k < |name| ensures !(name[k - 1] == '-' && name[k] == '-') {
      if k < |a| { assert name[k] == a[k] && name[k - 1] == a[k - 1]; }
    }
    SlugOfClean(name, "app", MaxLabel);
  }

  lemma CleanEnvironment(e: string)
    requires Clean(e) && 1 <= |e| <= MaxLabel
    ensures EnvironmentSlug(e) == e
  {
    SlugOfClean(e, "production", MaxLabel);
  }

  lemma CleanPrefix(c: string)
    requires Clean(c) && 1 <= |c| <= 50
    ensures Clean("z-" + c) && EnvironmentSlug("z-" + c) == "z-" + c && EnvironmentSlug(c) == c
  {
    var long := "z-" + c;
    forall k | 0 < k < |long| ensures !(long[k - 1] == '-' && long[k] == '-') {
      if k > 2 { assert long[k] == c[k - 2] && long[k - 1] == c[k - 3]; }
    }
    CleanEnvironment(long);
    CleanEnvironment(c);
  }

  lemma CutBeforeLast(a: string)
    requires Clean(a) && a != ""
    ensures StripRight(Cut(a + "-z", |a| + 1), Dash) == a
  {
    var cut := a + ['-'];
    assert Cut(a + "-z", |a| + 1) == cut;
    assert cut[..|cut| - 1] == a;
    StripBare(a, Dash);
  }

  lemma SameRelease(name: string, cut: string, long: string, short: string, project: Option<nat>, room: nat)
    requires 1 <= room && room == 46 - |EnvironmentSlug(long)| - |IdSuffix(project, 12)|
    requires cut == StripRight(Cut(WorkloadName(name, MaxLabel), room), Dash)
    requires |WorkloadName(name, MaxLabel)| + |EnvironmentSlug(short)| + |IdSuffix(project, 12)| <= 46
    requires Assembled(cut, EnvironmentSlug(long), IdSuffix(project, 12))
          == Assembled(WorkloadName(name, MaxLabel), EnvironmentSlug(short), IdSuffix(project, 12))
    ensures HelmReleaseName(name, long, project) == HelmReleaseName(name, short, project)
  {
    ReleaseSpelled(name, long, project, cut);
    ReleaseRoomy(name, short, project);
  }

  // The longer environment pushes "-z" out of the project part; the shorter one leaves it there.
  lemma CutMovesBoundary(a: string, c: string, project: Option<nat>)
    requires Clean(a) && a != "" && Clean(c) && c != "" && |a| + 3 + |c| + |IdSuffix(project, 12)| == 46
    ensures HelmReleaseName(a + "-z", "z-" + c, project) == HelmReleaseName(a + "-z", c, project)
  {
    var name, long := a + "-z", "z-" + c;
    assert WorkloadName(name, MaxLabel) == name by { CleanName(a); }
    assert EnvironmentSlug(long) == long && EnvironmentSlug(c) == c by { CleanPrefix(c); }
    CutBeforeLast(a);
    AssembledShifts(a, c, IdSuffix(project, 12));
    SameRelease(name, a, long, c, project, |a| + 1);
  }

  lemma AssembledShifts(slug: string, environment: string, suffix: string)
    ensures Assembled(slug, "z-" + environment, suffix) == Assembled(slug + "-z", environment, suffix)
  {
    assert slug + "-" + ("z-" + environment) == slug + "-z" + "-" + environment;
    assert Assembled(slug, "z-" + environment, suffix) == "paas-" + (slug + "-" + ("z-" + environment)) + "-" + suffix;
    assert Assembled(slug + "-z", environment, suffix) == "paas-" + (slug + "-z" + "-" + environment) + "-" + suffix;
  }

  /******* Environments whose name is cut *******/

  lemma AssembledCut(slug: string, environment: string, suffix: string)
    requires |slug| == 1 && |environment| <= 44 && |environment| + |suffix| >= 46
    ensures Cut(Assembled(slug, environment, suffix), MaxRelease)
         == Assembled(slug, environment, Cut(suffix, 45 - |environment|))
  {
    var front := "paas-" + slug + "-" + environment + "-";
    assert Assembled(slug, environment, suffix) == front + suffix;
    assert (front + suffix)[..53] == front + suffix[..53 - |front|];
  }

  lemma AssembledEnds(slug: string, environment: string, suffix: string)
    requires suffix != "" && All(suffix, Alnum)
    ensures StripRight(Assembled(slug, environment, suffix), Dash) == Assembled(slug, environment, suffix)
  {
    var whole := Assembled(slug, environment, suffix);
    AssembledRecovers(slug, environment, suffix);
    assert whole[|whole| - 1] == suffix[|suffix| - 1];
    StripBare(whole, Dash);
  }

  // Up to 44 characters of environment slug, at most the id loses digits.
  lemma ReleaseBounded(name: string, environment: string, project: Option<nat>)
    requires |EnvironmentSlug(environment)| <= 44
    ensures HelmReleaseName(name, environment, project)
         == Assembled(ReleaseProject(name, environment, IdSuffix(project, 12)), EnvironmentSlug(environment),
                      Cut(IdSuffix(project, 12), 45 - |EnvironmentSlug(environment)|))
  {
    var suffix, e := IdSuffix(project, 12), EnvironmentSlug(environment);
    SuffixShape(project, 12);
    if |e| + |suffix| <= 45 {
      ReleaseUncut(name, environment, project);
    } else {
      var slug := ReleaseProject(name, environment, suffix);
      ReleaseProjectShape(name, environment, suffix);
      AssembledCut(slug, e, suffix);
      AssembledEnds(slug, e, Cut(suffix, 45 - |e|));
    }
  }

  // The part behind the last dash and the part before it can be told apart.
  lemma AssembledSplits(slug: string, e: string, d: string, slug': string, e': string, d': string)
    requires '-' !in d && '-' !in d' && Assembled(slug, e, d) == Assembled(slug', e', d')
    ensures d == d' && slug + "-" + e == slug' + "-" + e'
  {
    var front, front' := "paas-" + (slug + "-" + e), "paas-" + (slug' + "-" + e');
    assert Assembled(slug, e, d) == front + "-" + d && Assembled(slug', e', d') == front' + "-" + d';
    LastBefore(front, '-', d);
    LastBefore(front', '-', d');
    assert (front + "-" + d)[|front| + 1..] == d && (front' + "-" + d')[|front'| + 1..] == d';
    assert (front + "-" + d)[..|front|] == front && (front' + "-" + d')[..|front'|] == front';
    assert front[5..] == slug + "-" + e && front'[5..] == slug' + "-" + e';
  }

  // Two ways to read one string as slug and environment need three characters of each.
  lemma TwoReadings(slug: string, e: string, slug': string, e': string)
    requires slug + "-" + e == slug' + "-" + e' && e != e'
    requires Clean(slug) && Clean(slug') && slug != "" && slug' != "" && e != "" && e' != ""
    ensures (|slug| >= 3 || |slug'| >= 3) && (|e| >= 3 || |e'| >= 3)
  {
    var whole := slug + "-" + e;
    assert whole[|slug|] == '-' && whole[|slug'|] == '-';
    assert whole[|slug| + 1..] == e && whole[|slug'| + 1..] == e';
    if |slug| < |slug'| {
      LaterReading(slug, e, slug', e');
    } else if |slug'| < |slug| {
      LaterReading(slug', e', slug, e);
    }
  }

  lemma LaterReading(slug: string, e: string, slug': string, e': string)
    requires slug + "-" + e == slug' + "-" + e' && |slug| < |slug'|
    requires Clean(slug') && slug != "" && e' != ""
    ensures |slug'| >= 3 && |e| >= 3
  {
    var whole := slug + "-" + e;
    assert whole[|slug|] == '-' && whole == slug' + ("-" + e');
    assert slug'[|slug|] == '-' && !Dash(slug'[|slug'| - 1]);
  }

  lemma CutReadings(slug: string, e: string, slug': string, e': string, suffix: string)
    requires |e| <= 44 && |e'| <= 44 && All(suffix, Alnum)
    requires Assembled(slug, e, Cut(suffix, 45 - |e|)) == Assembled(slug', e', Cut(suffix, 45 - |e'|)) && e != e'
    requires Clean(slug) && Clean(slug') && slug != "" && slug' != "" && e != "" && e' != ""
    ensures (|slug| >= 3 || |slug'| >= 3) && (|e| >= 3 || |e'| >= 3)
  {
    AssembledSplits(slug, e, Cut(suffix, 45 - |e|), slug', e', Cut(suffix, 45 - |e'|));
    TwoReadings(slug, e, slug', e');
  }

  // Environments up to 44 characters share a release only when both slugs have room to trade a word.
  lemma SharedNeedsRoom(name: string, e: string, e': string, project: nat)
    requires |EnvironmentSlug(e)| <= 44 && |EnvironmentSlug(e')| <= 44 && EnvironmentSlug(e) != EnvironmentSlug(e')
    requires HelmReleaseName(name, e, Some(project)) == HelmReleaseName(name, e', Some(project))
    ensures |WorkloadName(name, MaxLabel)| >= 3
    ensures |EnvironmentSlug(e)| >= 3 || |EnvironmentSlug(e')| >= 3
  {
    var suffix := IdSuffix(Some(project), 12);
    ReleaseBounded(name, e, Some(project));
    ReleaseBounded(name, e', Some(project));
    SuffixShape(Some(project), 12);
    ReleaseProjectFits(name, e, suffix);
    ReleaseProjectFits(name, e', suffix);
    EnvironmentSlugShape(e);
    EnvironmentSlugShape(e');
    CutReadings(ReleaseProject(name, e, suffix), EnvironmentSlug(e), ReleaseProject(name, e', suffix), EnvironmentSlug(e'), suffix);
  }

  lemma ReleaseProjectFits(name: string, environment: string, suffix: string)
    ensures var slug := ReleaseProject(name, environment, suffix);
            Clean(slug) && slug != "" && |slug| <= |WorkloadName(name, MaxLabel)|
  {
    ReleaseProjectShape(name, environment, suffix);
    WorkloadNameShape(name);
    CutClean(WorkloadName(name, MaxLabel), ReleaseRoom(environment, suffix));
  }

  // 45 characters push the whole id out of the name, and may end in another environment and the id.
  lemma IdReadAsEnvironment(c: string, project: nat)
    requires Clean(c) && |c| + |IdSuffix(Some(project), 12)| == 44
    ensures var e := c + "-" + IdSuffix(Some(project), 12);
            && |e| == 45 && EnvironmentSlug(e) == e && EnvironmentSlug(c) == c
            && HelmReleaseName("a", e, Some(project)) == HelmReleaseName("a", c, Some(project))
  {
    var suffix := IdSuffix(Some(project), 12);
    var e := c + "-" + suffix;
    SuffixShape(Some(project), 12);
    CleanJoins(c, suffix);
    CleanEnvironment(e);
    CleanEnvironment(c);
    NameA();
    ReleaseRoomy("a", c, Some(project));
    ReleaseProjectShape("a", e, suffix);
    AssembledLosesId("a", c, suffix);
  }

  lemma NameA()
    ensures WorkloadName("a", MaxLabel) == "a"
  {
    SlugOfClean("a", "app", MaxLabel);
  }

  lemma CleanJoins(c: string, suffix: string)
    requires Clean(c) && c != "" && All(suffix, Alnum) && suffix != ""
    ensures Clean(c + "-" + suffix)
  {
    var e := c + "-" + suffix;
    forall k | 0 < k < |e| ensures !(e[k - 1] == '-' && e[k] == '-') {
      if k < |c| {
        assert e[k] == c[k] && e[k - 1] == c[k - 1];
      } else if k > |c| {
        assert e[k] == suffix[k - |c| - 1];
      }
    }
  }

  lemma AssembledLosesId(slug: string, c: string, suffix: string)
    requires |slug| == 1 && |c| + |suffix| == 44 && suffix != "" && All(suffix, Alnum)
    ensures StripRight(Cut(Assembled(slug, c + "-" + suffix, suffix), MaxRelease), Dash) == Assembled(slug, c, suffix)
  {
    var kept := Assembled(slug, c, suffix);
    assert kept == "paas-" + slug + "-" + (c + "-" + suffix);
    assert Assembled(slug, c + "-" + suffix, suffix) == (kept + ['-']) + suffix;
    assert Cut((kept + ['-']) + suffix, MaxRelease) == kept + ['-'];
    assert (kept + ['-'])[..|kept|] == kept;
    AssembledEnds(slug, c, suffix);
  }

  lemma ShortEnvironmentsCollide(project: nat, names: nat, environments: nat)
    requires names >= 3 && environments >= 3 && names + environments + |IdSuffix(Some(project), 12)| >= 47
    ensures !EnvironmentsSeparate(project, names, environments)
  {
    var s := |IdSuffix(Some(project), 12)|;
    SuffixShape(Some(project), 12);
    var l := if environments <= 44 - s then environments else 44 - s;
    var a, c := Repeat('a', 45 - l - s), Repeat('c', l - 2);
    CleanName(a);
    CleanPrefix(c);
    CutMovesBoundary(a, c, Some(project));
    SharedWitness(project, names, environments, a + "-z", "z-" + c, c);
  }

  lemma LongEnvironmentsCollide(project: nat, names: nat, environments: nat)
    requires names >= 1 && environments >= 45
    ensures !EnvironmentsSeparate(project, names, environments)
  {
    var suffix := IdSuffix(Some(project), 12);
    SuffixShape(Some(project), 12);
    var c := Repeat('c', 44 - |suffix|);
    NameA();
    IdReadAsEnvironment(c, project);
    SharedWitness(project, names, environments, "a", c + "-" + suffix, c);
  }

  lemma SharedWitness(project: nat, names: nat, environments: nat, name: string, e: string, e': string)
    requires |WorkloadName(name, MaxLabel)| <= names && |EnvironmentSlug(e)| <= environments
    requires |EnvironmentSlug(e')| <= environments && EnvironmentSlug(e) != EnvironmentSlug(e')
    requires HelmReleaseName(name, e, Some(project)) == HelmReleaseName(name, e', Some(project))
    ensures !EnvironmentsSeparate(project, names, environments)
  {
  }

  lemma EnvironmentsApart(project: nat, names: nat, environments: nat, name: string, e: string, e': string)
    requires |WorkloadName(name, MaxLabel)| <= names && |EnvironmentSlug(e)| <= environments
    requires |EnvironmentSlug(e')| <= environments && EnvironmentSlug(e) != EnvironmentSlug(e')
    requires || names == 0 || environments <= 2
             || names + environments + |IdSuffix(Some(project), 12)| <= 46
             || (names <= 2 && environments <= 44)
    ensures HelmReleaseName(name, e, Some(project)) != HelmReleaseName(name, e', Some(project))
  {
    WorkloadNameShape(name);
    if HelmReleaseName(name, e, Some(project)) == HelmReleaseName(name, e', Some(project)) {
      if names + environments + |IdSuffix(Some(project), 12)| <= 46 {
        EnvironmentReadable(name, e, e', project);
      } else {
        SharedNeedsRoom(name, e, e', project);
      }
    }
  }

  // For bounds on the project slug and the environment slug, the environments of one project get
  // releases of their own exactly when slugs and id fit into 46 characters together, or one of the
  // slugs is too short to trade a word and no environment pushes the whole id out.
  lemma ReleasesSeparateEnvironments(project: nat, names: nat, environments: nat)
    ensures EnvironmentsSeparate(project, names, environments) <==>
              || names == 0
              || environments <= 2
              || names + environments + |IdSuffix(Some(project), 12)| <= 46
              || (names <= 2 && environments <= 44)
  {
    if names == 0 || environments <= 2 || names + environments + |IdSuffix(Some(project), 12)| <= 46
       || (names <= 2 && environments <= 44) {
      forall name, e, e' | |WorkloadName(name, MaxLabel)| <= names && |EnvironmentSlug(e)| <= environments
                           && |EnvironmentSlug(e')| <= environments && EnvironmentSlug(e) != EnvironmentSlug(e')
        ensures HelmReleaseName(name, e, Some(project)) != HelmReleaseName(name, e', Some(project))
      {
        EnvironmentsApart(project, names, environments, name, e, e');
      }
    } else {
      if environments >= 45 {
        LongEnvironmentsCollide(project, names, environments);
      } else {
        ShortEnvironmentsCollide(project, names, environments);
      }
    }
  }
}
