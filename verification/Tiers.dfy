/** The tier table: which tiers charge a request, in which order, for how much. */
module Tiers {
  import opened Options
  import opened SlidingWindow
  import opened Paths
  import opened LocalFallback
  import opened RedisWindow

  datatype Method = GET | POST | DELETE | OtherMethod(name: string)

  /** `user` is the `sub` claim of the bearer token, when there is a valid one. */
  datatype Request = Request(verb: Method, path: string, ip: string, user: Option<string>)

  /** The rate-limit settings an operator can change. */
  datatype Settings = Settings(
    loginBurstLimit: int, loginBurstWindow: int,
    loginHourlyLimit: int, loginHourlyWindow: int,
    generationLimit: int, generationWindow: int)

  /** One check a request undergoes, and the Retry-After it gets when the check fails. */
  datatype Charge = Charge(key: Key, rule: Rule, retryAfter: int)

  /** `_positive_int`. */
  function PositiveInt(value: int, fallback: nat): (r: nat)
    ensures fallback >= 1 ==> r >= 1
    ensures value >= 1 ==> r == value
    ensures value <= 0 ==> r == fallback
  {
    if value > 0 then value else fallback
  }

  // ------------------------------------------------------------------ the table

  const LOGIN_PATHS: set<string> := {"/auth/google", "/auth/callback"}
  const BYPASS_PATHS: set<string> := {"/health"}
  const WEBHOOK_PATHS: set<string> := {"/billing/webhook", "/billing/webhook/razorpay", "/integrations/github/webhook"}

  /** The tiers that name paths by pattern: first those charged to the address, then those
      charged to the user. */
  const IP_FEATURES: seq<Tier> := [PublicView, StoryboardPublicView, StoryboardDownloadIp]
  const USER_FEATURES: seq<Tier> := [
    Generation, GithubExport, GithubRepoList, GithubSync, GithubIncrementPush, Clarify, PdfExport, AgentInstructions,
    ShareToggle, BillingCheckout, BillingAdminCorrection, StoryboardGenerate, StoryboardSectionRegenerate,
    StoryboardShareToggle, StoryboardDownloadUser]

  function PatternsOf(t: Tier): seq<Pattern> {
    match t
    case WebhookIp | Ip | Login | LoginHourly | User => []
    case PublicView => [[Lit("public"), AnySegment]]
    case StoryboardPublicView => [[Lit("storyboards"), Lit("public"), AnySegment]]
    case StoryboardDownloadIp => [[Lit("storyboards"), Lit("public"), AnySegment, Lit("download"), AnySegment]]
    case Generation => [[Lit("stages"), AnySegment, OneOf(["generate", "regenerate", "regenerate-gaps"])]]
    case GithubExport => [[Lit("workspaces"), AnySegment, Lit("export"), Lit("github")]]
    case GithubRepoList => [[Lit("integrations"), Lit("github"), Lit("installations"), AnySegment, Lit("repos")]]
    case GithubSync => [[Lit("workspaces"), AnySegment, Lit("sync"), OneOf(["resync", "backfill"])]]
    case GithubIncrementPush => [[Lit("workspaces"), AnySegment, Lit("increments"), AnySegment, Lit("push")]]
    case Clarify => [[Lit("workspaces"), AnySegment, Lit("clarify")]]
    case PdfExport => [[Lit("workspaces"), AnySegment, Lit("export"), Lit("pdf")]]
    case AgentInstructions =>
      [[Lit("workspaces"), AnySegment, Lit("export"), Lit("agent-instructions"),
        OneOf(["codex", "claude_code", "both"])]]
    case ShareToggle => [[Lit("workspaces"), AnySegment, Lit("share")],
                         [Lit("workspaces"), AnySegment, Lit("share"), Lit("rotate")]]
    case BillingCheckout => [[Lit("billing"), Lit("checkout")]]
    case BillingAdminCorrection => [[Lit("billing"), Lit("admin"), Lit("correction")]]
    case StoryboardGenerate => [[Lit("workspaces"), AnySegment, Lit("storyboards")],
                                [Lit("storyboards"), AnySegment, Lit("regenerate")]]
    case StoryboardSectionRegenerate =>
      [[Lit("storyboards"), AnySegment, Lit("sections"), AnySegment, Lit("regenerate")]]
    case StoryboardShareToggle => [[Lit("storyboards"), AnySegment, Lit("share")],
                                   [Lit("storyboards"), AnySegment, Lit("share"), Lit("rotate")]]
    case StoryboardDownloadUser => [[Lit("storyboards"), AnySegment, Lit("download"), AnySegment]]
  }

  predicate VerbOk(t: Tier, verb: Method) {
    match t
    case PublicView | StoryboardPublicView | StoryboardDownloadIp | GithubRepoList | AgentInstructions
       | StoryboardDownloadUser => verb == GET
    case ShareToggle | StoryboardShareToggle => verb == POST || verb == DELETE
    case _ => verb == POST
  }

  /** The limit, the window, and the seconds announced on rejection. */
  function Terms(s: Settings, t: Tier): (int, nat, int) {
    match t
    case WebhookIp => (6000, 60, 60)
    case Ip => (1000, 60, 60)
    case PublicView => (120, 60, 60)
    case StoryboardPublicView => (120, 60, 60)
    case StoryboardDownloadIp => (30, 3600, 3600)
    case Login => (PositiveInt(s.loginBurstLimit, 5), PositiveInt(s.loginBurstWindow, 300),
                   PositiveInt(s.loginBurstWindow, 300))
    case LoginHourly => (PositiveInt(s.loginHourlyLimit, 20), PositiveInt(s.loginHourlyWindow, 3600),
                         PositiveInt(s.loginHourlyWindow, 3600))
    case User => (100, 60, 60)
    case Generation => (s.generationLimit, PositiveInt(s.generationWindow, 60), PositiveInt(s.generationWindow, 60))
    case GithubExport => (3, 3600, 3600)
    case GithubRepoList => (30, 3600, 3600)
    case GithubSync => (10, 3600, 3600)
    case GithubIncrementPush => (5, 3600, 3600)
    case Clarify => (6, 3600, 3600)
    case PdfExport => (10, 3600, 3600)
    case AgentInstructions => (30, 3600, 3600)
    case ShareToggle => (20, 3600, 3600)
    case BillingCheckout => (5, 3600, 3600)
    case BillingAdminCorrection => (10, 3600, 3600)
    case StoryboardGenerate => (3, 3600, 3600)
    case StoryboardSectionRegenerate => (10, 3600, 3600)
    case StoryboardShareToggle => (20, 3600, 3600)
    case StoryboardDownloadUser => (30, 3600, 3600)
  }

  function ChargeOf(s: Settings, t: Tier, subject: string): Charge {
    var (limit, window, retryAfter) := Terms(s, t);
    Charge(Key(t, subject), Rule(limit, window), retryAfter)
  }

  /** A feature tier names this request. */
  predicate Names(t: Tier, verb: Method, path: string) {
    VerbOk(t, verb) && exists i :: 0 <= i < |PatternsOf(t)| && Matches(PatternsOf(t)[i], path)
  }

  /** Setting the generation limit to zero or less switches that tier off. */
  predicate SwitchedOn(s: Settings, t: Tier) {
    t == Generation ==> s.generationLimit > 0
  }

  function Features(s: Settings, ts: seq<Tier>, verb: Method, path: string, subject: string): seq<Charge> {
    if ts == [] then []
    else
      (if SwitchedOn(s, ts[0]) && Names(ts[0], verb, path) then [ChargeOf(s, ts[0], subject)] else [])
      + Features(s, ts[1..], verb, path, subject)
  }

  /** `_enforce_limits`: the checks of a request, in order, up to the first that fails. */
  function Chain(s: Settings, r: Request): seq<Charge> {
    if r.path in WEBHOOK_PATHS then [ChargeOf(s, WebhookIp, r.ip)]
    else
      [ChargeOf(s, Ip, r.ip)]
      + Features(s, IP_FEATURES, r.verb, r.path, r.ip)
      + (if r.path in LOGIN_PATHS then [ChargeOf(s, Login, r.ip), ChargeOf(s, LoginHourly, r.ip)] else [])
      + (if r.user.Some? && r.user.value != "" then
           [ChargeOf(s, User, r.user.value)] + Features(s, USER_FEATURES, r.verb, r.path, r.user.value)
         else [])
  }

  // ------------------------------------------------------------------ unusable settings

  predicate Usable(s: Settings) {
    && s.loginBurstLimit > 0 && s.loginBurstWindow > 0
    && s.loginHourlyLimit > 0 && s.loginHourlyWindow > 0
    && s.generationWindow > 0
  }

  const DEFAULTS := Settings(5, 300, 20, 3600, 0, 60)

  /** The settings with every number that is not positive replaced by its default; only the
      generation limit, where it means off, is kept. */
  function Repaired(s: Settings): (r: Settings)
    ensures Usable(r) && r.generationLimit == s.generationLimit
    ensures Usable(s) ==> r == s
  {
    Settings(
      if s.loginBurstLimit > 0 then s.loginBurstLimit else DEFAULTS.loginBurstLimit,
      if s.loginBurstWindow > 0 then s.loginBurstWindow else DEFAULTS.loginBurstWindow,
      if s.loginHourlyLimit > 0 then s.loginHourlyLimit else DEFAULTS.loginHourlyLimit,
      if s.loginHourlyWindow > 0 then s.loginHourlyWindow else DEFAULTS.loginHourlyWindow,
      s.generationLimit,
      if s.generationWindow > 0 then s.generationWindow else DEFAULTS.generationWindow)
  }

  lemma {:induction false} RepairedFeatures(s: Settings, ts: seq<Tier>, verb: Method, path: string, subject: string)
    ensures Features(s, ts, verb, path, subject) == Features(Repaired(s), ts, verb, path, subject)
  {
    if ts != [] {
      RepairedFeatures(s, ts[1..], verb, path, subject);
      RepairedCharge(s, ts[0], subject);
      hide Names, ChargeOf, Repaired;
    }
  }

  lemma RepairedCharge(s: Settings, t: Tier, subject: string)
    ensures ChargeOf(s, t, subject) == ChargeOf(Repaired(s), t, subject)
    ensures SwitchedOn(s, t) == SwitchedOn(Repaired(s), t)
  {}

  /** A setting that is not positive acts as its default on every request: every configuration
      charges like one whose login limits and windows are all positive. */
  lemma BadSettingsActAsDefaults(s: Settings, r: Request)
    ensures Chain(s, r) == Chain(Repaired(s), r)
  {
    RepairedFeatures(s, IP_FEATURES, r.verb, r.path, r.ip);
    if r.user.Some? {
      RepairedFeatures(s, USER_FEATURES, r.verb, r.path, r.user.value);
      RepairedCharge(s, User, r.user.value);
    }
    RepairedCharge(s, WebhookIp, r.ip);
    RepairedCharge(s, Ip, r.ip);
    RepairedCharge(s, Login, r.ip);
    RepairedCharge(s, LoginHourly, r.ip);
    hide ChargeOf, Features, Repaired;
  }

  // ------------------------------------------------------------------ at most one feature

  predicate AllPlain(s: seq<string>) {
    forall i :: 0 <= i < |s| ==> Paths.Plain(s[i])
  }

  /** The feature tier of a path, read segment by segment and written independently of the
      table. */
  function FeatureAt(verb: Method, s: seq<string>): Option<Tier> {
    if s == [] || !AllPlain(s) then None
    else if s[0] == "workspaces" then WorkspaceFeature(verb, s)
    else if s[0] == "storyboards" then StoryboardFeature(verb, s)
    else OtherFeature(verb, s)
  }

  function OtherFeature(verb: Method, s: seq<string>): Option<Tier>
    requires s != []
  {
    if verb == GET then
      if |s| == 2 && s[0] == "public" then Some(PublicView)
      else if |s| == 5 && s[..3] == ["integrations", "github", "installations"] && s[4] == "repos" then
        Some(GithubRepoList)
      else None
    else if verb != POST then None
    else if s == ["billing", "checkout"] then Some(BillingCheckout)
    else if s == ["billing", "admin", "correction"] then Some(BillingAdminCorrection)
    else if |s| == 3 && s[0] == "stages" && s[2] in {"generate", "regenerate", "regenerate-gaps"} then Some(Generation)
    else None
  }

  function WorkspaceFeature(verb: Method, s: seq<string>): Option<Tier> {
    if |s| < 3 then None
    else
      var action := s[2..];
      if action == ["share"] || action == ["share", "rotate"] then
        if verb == POST || verb == DELETE then Some(ShareToggle) else None
      else if |action| == 3 && action[..2] == ["export", "agent-instructions"] then
        if verb == GET && action[2] in {"codex", "claude_code", "both"} then Some(AgentInstructions) else None
      else if verb != POST then None
      else if action == ["export", "github"] then Some(GithubExport)
      else if action == ["export", "pdf"] then Some(PdfExport)
      else if action == ["sync", "resync"] || action == ["sync", "backfill"] then Some(GithubSync)
      else if |action| == 3 && action[0] == "increments" && action[2] == "push" then Some(GithubIncrementPush)
      else if action == ["clarify"] then Some(Clarify)
      else if action == ["storyboards"] then Some(StoryboardGenerate)
      else None
  }

  function StoryboardFeature(verb: Method, s: seq<string>): Option<Tier> {
    if |s| < 3 then None
    else
      var action := s[2..];
      if verb == GET then
        if |s| == 3 && s[1] == "public" then Some(StoryboardPublicView)
        else if |s| == 5 && s[1] == "public" && s[3] == "download" then Some(StoryboardDownloadIp)
        else if |s| == 4 && s[2] == "download" then Some(StoryboardDownloadUser)
        else None
      else if action == ["share"] || action == ["share", "rotate"] then
        if verb == POST || verb == DELETE then Some(StoryboardShareToggle) else None
      else if verb != POST then None
      else if action == ["regenerate"] then Some(StoryboardGenerate)
      else if |action| == 3 && action[0] == "sections" && action[2] == "regenerate" then
        Some(StoryboardSectionRegenerate)
      else None
  }

  /** Unfolds one fitting pattern. */
  lemma Fitting(p: Pattern, s: seq<string>)
    requires Fits(p, s)
    ensures |s| == |p|
    ensures |p| > 0 ==> Accepts(p[0], s[0])
    ensures |p| > 1 ==> Accepts(p[1], s[1])
    ensures |p| > 2 ==> Accepts(p[2], s[2])
    ensures |p| > 3 ==> Accepts(p[3], s[3])
    ensures |p| > 4 ==> Accepts(p[4], s[4])
    ensures forall i :: 0 <= i < |s| ==> Paths.Plain(s[i])
  {}

  lemma WorkspaceFeatureIs(t: Tier, verb: Method, p: Pattern, s: seq<string>)
    requires VerbOk(t, verb) && p in PatternsOf(t) && Fits(p, s) && p[0] == Lit("workspaces")
    ensures WorkspaceFeature(verb, s) == Some(t)
  {
    Fitting(p, s);
    hide Fits;
  }

  lemma StoryboardFeatureIs(t: Tier, verb: Method, p: Pattern, s: seq<string>)
    requires VerbOk(t, verb) && p in PatternsOf(t) && Fits(p, s) && p[0] == Lit("storyboards")
    ensures StoryboardFeature(verb, s) == Some(t)
  {
    Fitting(p, s);
    hide Fits;
  }

  lemma OtherFeatureIs(t: Tier, verb: Method, p: Pattern, s: seq<string>)
    requires VerbOk(t, verb) && p in PatternsOf(t) && Fits(p, s)
    requires p[0] != Lit("workspaces") && p[0] != Lit("storyboards")
    ensures s[0] != "workspaces" && s[0] != "storyboards" && OtherFeature(verb, s) == Some(t)
  {
    Fitting(p, s);
    hide Fits;
  }

  lemma FeatureIs(t: Tier, verb: Method, p: Pattern, s: seq<string>)
    requires VerbOk(t, verb) && p in PatternsOf(t) && Fits(p, s)
    ensures FeatureAt(verb, s) == Some(t)
  {
    hide Fits, WorkspaceFeature, StoryboardFeature, OtherFeature;
    Fitting(p, s);
    if p[0] == Lit("workspaces") {
      WorkspaceFeatureIs(t, verb, p, s);
    } else if p[0] == Lit("storyboards") {
      StoryboardFeatureIs(t, verb, p, s);
    } else {
      OtherFeatureIs(t, verb, p, s);
    }
  }

  /** The table has a pattern for this tier and verb. */
  ghost predicate Listed(t: Tier, verb: Method, s: seq<string>) {
    VerbOk(t, verb) && exists i :: 0 <= i < |PatternsOf(t)| && Fits(PatternsOf(t)[i], s)
  }

  lemma ShortWorkspaceListed(t: Tier, verb: Method, s: seq<string>)
    requires AllPlain(s) && |s| == 3 && s[0] == "workspaces" && WorkspaceFeature(verb, s) == Some(t)
    ensures Listed(t, verb, s)
  {
    assert s[2..][0] == s[2];
    hide Paths.Plain;
    assert Fits(PatternsOf(t)[0], s);
  }

  lemma MiddleWorkspaceListed(t: Tier, verb: Method, s: seq<string>)
    requires AllPlain(s) && |s| == 4 && s[0] == "workspaces" && WorkspaceFeature(verb, s) == Some(t)
    ensures Listed(t, verb, s)
  {
    assert s[2..][0] == s[2] && s[2..][1] == s[3];
    hide Paths.Plain;
    assert Fits(PatternsOf(t)[if t == ShareToggle then 1 else 0], s);
  }

  lemma LongWorkspaceListed(t: Tier, verb: Method, s: seq<string>)
    requires AllPlain(s) && |s| >= 5 && s[0] == "workspaces" && WorkspaceFeature(verb, s) == Some(t)
    ensures Listed(t, verb, s)
  {
    assert s[2..][0] == s[2] && s[2..][1] == s[3] && s[2..][2] == s[4];
    hide Paths.Plain;
    assert Fits(PatternsOf(t)[0], s);
  }

  lemma StoryboardReadListed(t: Tier, s: seq<string>)
    requires AllPlain(s) && s != [] && s[0] == "storyboards" && StoryboardFeature(GET, s) == Some(t)
    ensures Listed(t, GET, s)
  {
    hide Paths.Plain;
    assert Fits(PatternsOf(t)[0], s);
  }

  lemma StoryboardWriteListed(t: Tier, verb: Method, s: seq<string>)
    requires verb != GET
    requires AllPlain(s) && s != [] && s[0] == "storyboards" && StoryboardFeature(verb, s) == Some(t)
    ensures Listed(t, verb, s)
  {
    assert |s| > 3 ==> s[2..][1] == s[3];
    assert |s| > 4 ==> s[2..][2] == s[4];
    assert |s| > 2 ==> s[2..][0] == s[2];
    hide Paths.Plain;
    assert Fits(PatternsOf(t)[if t == StoryboardGenerate || |s| == 4 then 1 else 0], s);
  }

  lemma OtherListed(t: Tier, verb: Method, s: seq<string>)
    requires AllPlain(s) && s != [] && OtherFeature(verb, s) == Some(t)
    ensures Listed(t, verb, s)
  {
    assert |s| > 2 ==> s[..3][0] == s[0] && s[..3][1] == s[1] && s[..3][2] == s[2];
    hide Paths.Plain;
    assert Fits(PatternsOf(t)[0], s);
  }

  lemma WorkspaceIsLong(verb: Method, s: seq<string>)
    requires WorkspaceFeature(verb, s).Some?
    ensures |s| >= 3
  {}

  /** The table and the segment-by-segment reading name the same tier, on every verb and path. */
  lemma NamesExactly(t: Tier, verb: Method, path: string)
    ensures Names(t, verb, path) <==> FeatureAt(verb, Segments(path)) == Some(t)
  {
    hide WorkspaceFeature, StoryboardFeature, OtherFeature, Segments, PatternsOf, VerbOk, Fits, AllPlain;
    var s := Segments(path);
    if Names(t, verb, path) {
      NamesFeature(t, verb, path);
    } else if FeatureAt(verb, s) == Some(t) {
      if s[0] == "workspaces" {
        if |s| == 3 {
          ShortWorkspaceListed(t, verb, s);
        } else if |s| == 4 {
          MiddleWorkspaceListed(t, verb, s);
        } else {
          WorkspaceIsLong(verb, s);
          LongWorkspaceListed(t, verb, s);
        }
      } else if s[0] == "storyboards" {
        if verb == GET {
          StoryboardReadListed(t, s);
        } else {
          StoryboardWriteListed(t, verb, s);
        }
      } else {
        OtherListed(t, verb, s);
      }
    }
  }

  /** For every verb and every path, of any length, at most one feature tier names it. */
  lemma OneFeature(t1: Tier, t2: Tier, verb: Method, path: string)
    requires Names(t1, verb, path) && Names(t2, verb, path)
    ensures t1 == t2
  {
    NamesFeature(t1, verb, path);
    NamesFeature(t2, verb, path);
  }

  lemma NamesFeature(t: Tier, verb: Method, path: string)
    requires Names(t, verb, path)
    ensures FeatureAt(verb, Segments(path)) == Some(t)
  {
    hide Fits, FeatureAt, Segments;
    var i :| 0 <= i < |PatternsOf(t)| && Matches(PatternsOf(t)[i], path);
    FeatureIs(t, verb, PatternsOf(t)[i], Segments(path));
  }

  /** The tiers a list of features contributes: none, or the one feature of the path. */
  lemma {:induction false} FeaturesAre(s: Settings, ts: seq<Tier>, verb: Method, path: string, subject: string)
    requires forall i, j :: 0 <= i < j < |ts| ==> ts[i] != ts[j]
    ensures var cs := Features(s, ts, verb, path, subject);
            && |cs| <= 1
            && forall c :: c in cs ==> c.key.tier in ts && Names(c.key.tier, verb, path) && SwitchedOn(s, c.key.tier)
                                       && c == ChargeOf(s, c.key.tier, subject)
    ensures forall t :: t in ts && Names(t, verb, path) && SwitchedOn(s, t)
              ==> ChargeOf(s, t, subject) in Features(s, ts, verb, path, subject)
  {
    hide Names;
    if ts != [] {
      FeaturesAre(s, ts[1..], verb, path, subject);
      var rest := Features(s, ts[1..], verb, path, subject);
      if rest != [] {
        var t := rest[0].key.tier;
        assert rest[0] in rest && t in ts[1..];
        assert t != ts[0];
        if Names(ts[0], verb, path) {
          OneFeature(ts[0], t, verb, path);
        }
      }
    }
  }

  /** Position of a tier in the order of the table. */
  function Rank(t: Tier): nat {
    match t
    case PublicView => 0 case StoryboardPublicView => 1 case StoryboardDownloadIp => 2
    case Generation => 0 case GithubExport => 1 case GithubRepoList => 2 case GithubSync => 3
    case GithubIncrementPush => 4 case Clarify => 5 case PdfExport => 6 case AgentInstructions => 7
    case ShareToggle => 8 case BillingCheckout => 9 case BillingAdminCorrection => 10 case StoryboardGenerate => 11
    case StoryboardSectionRegenerate => 12 case StoryboardShareToggle => 13 case StoryboardDownloadUser => 14
    case _ => 99
  }

  lemma TablesAreDistinct()
    ensures forall i, j :: 0 <= i < j < |IP_FEATURES| ==> IP_FEATURES[i] != IP_FEATURES[j]
    ensures forall i, j :: 0 <= i < j < |USER_FEATURES| ==> USER_FEATURES[i] != USER_FEATURES[j]
  {
    assert forall i :: 0 <= i < |IP_FEATURES| ==> Rank(IP_FEATURES[i]) == i;
    assert forall i :: 0 <= i < |USER_FEATURES| ==> Rank(USER_FEATURES[i]) == i;
  }

  lemma FirstLetters(t: Tier, p: Pattern, s: seq<string>)
    requires p in PatternsOf(t) && Fits(p, s)
    ensures |s| > 0 && |s[0]| > 0 && s[0][0] != 'a'
  {
    Fitting(p, s);
    hide Fits;
  }

  lemma NoFeatureOnLogin(t: Tier, verb: Method, path: string)
    requires path in LOGIN_PATHS
    ensures !Names(t, verb, path)
  {
    hide PatternsOf, Segments, Fits;
    if Names(t, verb, path) {
      var i :| 0 <= i < |PatternsOf(t)| && Matches(PatternsOf(t)[i], path);
      FirstLetters(t, PatternsOf(t)[i], Segments(path));
      FirstSegmentStarts(PatternsOf(t)[i], path);
    }
  }

  predicate IsIpFeature(t: Tier) {
    t == PublicView || t == StoryboardPublicView || t == StoryboardDownloadIp
  }

  predicate IsUserFeature(t: Tier) {
    !IsIpFeature(t) && t != WebhookIp && t != Ip && t != Login && t != LoginHourly && t != User
  }

  lemma TableMembers(t: Tier)
    ensures t in IP_FEATURES ==> IsIpFeature(t)
    ensures t in USER_FEATURES ==> IsUserFeature(t)
  {}

  /** Every feature tier has its place in its list. */
  lemma TableHolds(t: Tier)
    ensures IsIpFeature(t) ==> t in IP_FEATURES
    ensures IsUserFeature(t) ==> t in USER_FEATURES
  {
    assert IsIpFeature(t) ==> IP_FEATURES[Rank(t)] == t;
    assert IsUserFeature(t) ==> USER_FEATURES[Rank(t)] == t;
  }

  /** A charge this tier makes. */
  predicate Charges(s: Settings, c: Charge, subject: string) {
    c == ChargeOf(s, c.key.tier, subject) && SwitchedOn(s, c.key.tier)
  }

  lemma IpPart(s: Settings, r: Request)
    ensures var cs := Features(s, IP_FEATURES, r.verb, r.path, r.ip);
            && |cs| <= 1
            && (r.path in LOGIN_PATHS ==> cs == [])
            && (cs != []
                ==> IsIpFeature(cs[0].key.tier) && Charges(s, cs[0], r.ip) && Names(cs[0].key.tier, r.verb, r.path))
  {
    hide Names, Features, ChargeOf, LOGIN_PATHS;
    TablesAreDistinct();
    hide IP_FEATURES, USER_FEATURES;
    FeaturesAre(s, IP_FEATURES, r.verb, r.path, r.ip);
    var cs := Features(s, IP_FEATURES, r.verb, r.path, r.ip);
    if cs != [] {
      assert cs[0] in cs;
      TableMembers(cs[0].key.tier);
      if r.path in LOGIN_PATHS { NoFeatureOnLogin(cs[0].key.tier, r.verb, r.path); }
    }
  }

  lemma UserPart(s: Settings, r: Request, user: string)
    ensures var cs := Features(s, USER_FEATURES, r.verb, r.path, user);
            && |cs| <= 1
            && (r.path in LOGIN_PATHS ==> cs == [])
            && (cs != []
                ==> IsUserFeature(cs[0].key.tier) && Charges(s, cs[0], user) && Names(cs[0].key.tier, r.verb, r.path))
  {
    hide Names, Features, ChargeOf, LOGIN_PATHS;
    TablesAreDistinct();
    hide IP_FEATURES, USER_FEATURES;
    FeaturesAre(s, USER_FEATURES, r.verb, r.path, user);
    var cs := Features(s, USER_FEATURES, r.verb, r.path, user);
    if cs != [] {
      assert cs[0] in cs;
      TableMembers(cs[0].key.tier);
      if r.path in LOGIN_PATHS { NoFeatureOnLogin(cs[0].key.tier, r.verb, r.path); }
    }
  }

  /** The features of an address and of a user exclude each other. */
  lemma PartsExclude(s: Settings, r: Request, user: string)
    ensures Features(s, IP_FEATURES, r.verb, r.path, r.ip) == []
            || Features(s, USER_FEATURES, r.verb, r.path, user) == []
  {
    hide Names, Features, ChargeOf, LOGIN_PATHS, IP_FEATURES, USER_FEATURES;
    IpPart(s, r);
    UserPart(s, r, user);
    var ip, cs := Features(s, IP_FEATURES, r.verb, r.path, r.ip), Features(s, USER_FEATURES, r.verb, r.path, user);
    if ip != [] && cs != [] {
      OneFeature(ip[0].key.tier, cs[0].key.tier, r.verb, r.path);
    }
  }

  /** A request charges at most four windows, and no window twice. */
  lemma AtMostFourWindows(s: Settings, r: Request)
    ensures 1 <= |Chain(s, r)| <= 4
    ensures forall i, j :: 0 <= i < j < |Chain(s, r)| ==> Chain(s, r)[i].key != Chain(s, r)[j].key
  {
    hide Features, Terms, LOGIN_PATHS, WEBHOOK_PATHS, IP_FEATURES, USER_FEATURES, Names;
    IpPart(s, r);
    if r.user.Some? {
      UserPart(s, r, r.user.value);
      PartsExclude(s, r, r.user.value);
    }
  }

  // ------------------------------------------------------------------ exactly which charges

  /** The tiers that charge a request, tier by tier and without the lists. */
  predicate Due(s: Settings, r: Request, k: Key) {
    var webhook := r.path in WEBHOOK_PATHS;
    var caller := r.user == Some(k.subject) && k.subject != "";
    match k.tier
    case WebhookIp => webhook && k.subject == r.ip
    case Ip => !webhook && k.subject == r.ip
    case Login | LoginHourly => !webhook && r.path in LOGIN_PATHS && k.subject == r.ip
    case User => !webhook && caller
    case _ =>
      && !webhook && SwitchedOn(s, k.tier) && Names(k.tier, r.verb, r.path)
      && if IsIpFeature(k.tier) then k.subject == r.ip else caller
  }

  /** When a tier is checked: the address before its features, the login tiers, the user, and the
      user's feature last. */
  function Phase(t: Tier): nat {
    if t == WebhookIp || t == Ip then 0
    else if IsIpFeature(t) then 1
    else if t == Login then 2
    else if t == LoginHourly then 3
    else if t == User then 4
    else 5
  }

  lemma IpFeaturesDue(s: Settings, r: Request, c: Charge)
    ensures c in Features(s, IP_FEATURES, r.verb, r.path, r.ip)
            <==> IsIpFeature(c.key.tier) && SwitchedOn(s, c.key.tier) && Names(c.key.tier, r.verb, r.path)
                 && c == ChargeOf(s, c.key.tier, r.ip)
  {
    hide Names, Features, ChargeOf, SwitchedOn;
    TablesAreDistinct();
    TableMembers(c.key.tier);
    TableHolds(c.key.tier);
    hide IP_FEATURES, USER_FEATURES, IsIpFeature;
    FeaturesAre(s, IP_FEATURES, r.verb, r.path, r.ip);
  }

  lemma UserFeaturesDue(s: Settings, r: Request, user: string, c: Charge)
    ensures c in Features(s, USER_FEATURES, r.verb, r.path, user)
            <==> IsUserFeature(c.key.tier) && SwitchedOn(s, c.key.tier) && Names(c.key.tier, r.verb, r.path)
                 && c == ChargeOf(s, c.key.tier, user)
  {
    hide Names, Features, ChargeOf, SwitchedOn;
    TablesAreDistinct();
    TableMembers(c.key.tier);
    TableHolds(c.key.tier);
    hide IP_FEATURES, USER_FEATURES, IsUserFeature;
    FeaturesAre(s, USER_FEATURES, r.verb, r.path, user);
  }

  /** A request is charged by exactly the tiers due, each by its own terms: no tier that names a
      request is left out, and none is added. */
  lemma ChainIsExactlyDue(s: Settings, r: Request, c: Charge)
    ensures c in Chain(s, r) <==> c == ChargeOf(s, c.key.tier, c.key.subject) && Due(s, r, c.key)
  {
    hide Names, Features, Terms, LOGIN_PATHS, WEBHOOK_PATHS, IP_FEATURES, USER_FEATURES;
    IpFeaturesDue(s, r, c);
    if r.user.Some? {
      UserFeaturesDue(s, r, r.user.value, c);
    }
  }

  /** The checks are made in the order of their phases. */
  lemma ChainIsInOrder(s: Settings, r: Request)
    ensures forall i, j :: 0 <= i < j < |Chain(s, r)| ==>
              Phase(Chain(s, r)[i].key.tier) < Phase(Chain(s, r)[j].key.tier)
  {
    hide Names, Features, Terms, LOGIN_PATHS, WEBHOOK_PATHS, IP_FEATURES, USER_FEATURES;
    IpPart(s, r);
    if r.user.Some? {
      UserPart(s, r, r.user.value);
    }
  }

  /** Generation is metered exactly while its configured limit is positive. */
  lemma GenerationIsSwitched(s: Settings, r: Request, user: string)
    requires r.path !in WEBHOOK_PATHS && Names(Generation, r.verb, r.path) && r.user == Some(user) && user != ""
    ensures ChargeOf(s, Generation, user) in Chain(s, r) <==> s.generationLimit > 0
    ensures s.generationLimit <= 0 ==> forall c :: c in Chain(s, r) ==> c.key.tier != Generation
  {
    ChainIsExactlyDue(s, r, ChargeOf(s, Generation, user));
    forall c | c in Chain(s, r) && c.key.tier == Generation ensures s.generationLimit > 0 {
      ChainIsExactlyDue(s, r, c);
    }
    hide Chain, Names;
  }

  /** The quotas, grouped as an operator reads them: per minute for the views of a shared page, per
      hour for every other feature; generation alone is configured. */
  lemma Quotas(s: Settings, t: Tier)
    requires IsIpFeature(t) || IsUserFeature(t)
    ensures t == Generation ==> Terms(s, t).0 == s.generationLimit
    ensures t != Generation ==>
              var (limit, window, _) := Terms(s, t);
              && (window == 60 <==> t in {PublicView, StoryboardPublicView}) && (window != 60 ==> window == 3600)
              && (limit == 120 <==> t in {PublicView, StoryboardPublicView})
              && (limit == 30 <==>
                    t in {StoryboardDownloadIp, StoryboardDownloadUser, GithubRepoList, AgentInstructions})
              && (limit == 20 <==> t in {ShareToggle, StoryboardShareToggle})
              && (limit == 10 <==>
                    t in {GithubSync, PdfExport, BillingAdminCorrection, StoryboardSectionRegenerate})
              && (limit == 6 <==> t == Clarify)
              && (limit == 5 <==> t in {GithubIncrementPush, BillingCheckout})
              && (limit == 3 <==> t in {GithubExport, StoryboardGenerate})
  {}

  /** The exact paths outside the table: the three webhooks, charged to the address alone. */
  lemma WebhookChain(s: Settings, r: Request)
    requires r.path == "/billing/webhook" || r.path == "/billing/webhook/razorpay"
             || r.path == "/integrations/github/webhook"
    ensures Chain(s, r) == [Charge(Key(WebhookIp, r.ip), Rule(6000, 60), 60)]
  {}

  /** And the two login paths: an anonymous caller meets the address tier, then the burst tier,
      then the hourly tier, as configured. */
  lemma LoginChain(s: Settings, r: Request)
    requires Usable(s) && r.user.None? && (r.path == "/auth/google" || r.path == "/auth/callback")
    ensures Chain(s, r) == [
              Charge(Key(Ip, r.ip), Rule(1000, 60), 60),
              Charge(Key(Login, r.ip), Rule(s.loginBurstLimit, s.loginBurstWindow), s.loginBurstWindow),
              Charge(Key(LoginHourly, r.ip), Rule(s.loginHourlyLimit, s.loginHourlyWindow), s.loginHourlyWindow)]
  {
    IpPart(s, r);
    hide Features, Names;
  }

  // ------------------------------------------------------------------ rules and Retry-After

  /** The rule of every key, as the limiters need it.  A switched-off generation tier is never
      charged, so its entry is immaterial. */
  function RulesOf(s: Settings): Rules {
    (k: Key) => if SwitchedOn(s, k.tier) then ChargeOf(s, k.tier, k.subject).rule else Rule(1, 1)
  }

  lemma RulesArePositive(s: Settings)
    ensures Positive(RulesOf(s))
  {}

  lemma ChainCharges(s: Settings, r: Request, i: nat)
    requires i < |Chain(s, r)|
    ensures Charges(s, Chain(s, r)[i], Chain(s, r)[i].key.subject)
  {
    hide Features, LOGIN_PATHS, WEBHOOK_PATHS, IP_FEATURES, USER_FEATURES, Names, Terms;
    IpPart(s, r);
    if r.user.Some? {
      UserPart(s, r, r.user.value);
    }
  }

  /** Every charge follows the rule of its key, every rule is positive whatever the settings,
      and every tier announces exactly its own window. */
  lemma ChainFollowsRules(s: Settings, r: Request, i: nat)
    requires i < |Chain(s, r)|
    ensures Positive(RulesOf(s))
    ensures var c := Chain(s, r)[i];
            c.rule == RulesOf(s)(c.key) && c.retryAfter == RulesOf(s)(c.key).window
  {
    hide Chain;
    RulesArePositive(s);
    ChainCharges(s, r, i);
  }

  /** Retry-After is sufficient in the fallback map: for every tier of every request's chain, a
      call that comes r seconds after a run, and before which nothing is admitted on its key,
      passes, where r is what the tier announces. */
  lemma RetryAfterSufficesLocally(s: Settings, r: Request, i: nat, calls: seq<Call>, start: int, t0: int,
                                  between: seq<Call>, t1: int)
    requires i < |Chain(s, r)|
    requires Monotone(calls, start) && Monotone(between, t0)
    requires forall i :: 0 <= i < |calls| ==> calls[i].now <= t0
    requires forall i :: 0 <= i < |between| ==> between[i].now <= t1
    requires t1 >= t0 + Chain(s, r)[i].retryAfter
    requires var c := Chain(s, r)[i];
             var held := Exec(RulesOf(s), EMPTY, calls).0;
             Admits(RulesOf(s), held, between, c.key, t1 - c.rule.window, t1) == 0
    ensures var c := Chain(s, r)[i];
            var held := Exec(RulesOf(s), EMPTY, calls).0;
            CheckStep(Exec(RulesOf(s), held, between).0, c.key, c.rule, t1).1
  {
    hide Chain, CheckStep, Exec, Admits, RulesOf;
    ChainFollowsRules(s, r, i);
    RetryPasses(RulesOf(s), calls, start, Chain(s, r)[i].key, t0, between, t1);
  }

  /** Retry-After is sufficient on Redis as well, TTLs included. */
  lemma RetryAfterSufficesOnRedis(s: Settings, r: Request, i: nat, calls: seq<Call>, t0: int,
                                  between: seq<Call>, t1: int, member: string)
    requires i < |Chain(s, r)|
    requires forall i :: 0 <= i < |calls| ==> calls[i].now <= t0
    requires forall i :: 0 <= i < |between| ==> t0 <= between[i].now <= t1
    requires t1 >= t0 + Chain(s, r)[i].retryAfter
    requires var c := Chain(s, r)[i];
             var db := ScriptLast(RulesOf(s), map[], calls);
             ScriptAdmits(RulesOf(s), db, between, c.key, t1 - c.rule.window, t1) == 0
    ensures var c := Chain(s, r)[i];
            var db := ScriptLast(RulesOf(s), map[], calls);
            ScriptStep(ScriptLast(RulesOf(s), db, between), c.key, c.rule, t1, member, true).1
  {
    hide Chain, ScriptStep, ScriptLast, ScriptAdmits, RulesOf;
    ChainFollowsRules(s, r, i);
    RetryPassesRedis(RulesOf(s), calls, Chain(s, r)[i].key, t0, between, t1, member);
  }

  // ------------------------------------------------------------------ key strings

  function Name(t: Tier): string {
    match t
    case WebhookIp => "webhook_ip"
    case Ip => "ip"
    case PublicView => "public_view"
    case StoryboardPublicView => "storyboard_public_view"
    case StoryboardDownloadIp => "storyboard_download_ip"
    case Login => "login"
    case LoginHourly => "login_hourly"
    case User => "user"
    case Generation => "generation"
    case GithubExport => "github_export"
    case GithubRepoList => "github_repo_list"
    case GithubSync => "github_sync"
    case GithubIncrementPush => "github_increment_push"
    case Clarify => "clarify"
    case PdfExport => "pdf_export"
    case AgentInstructions => "agent_instructions"
    case ShareToggle => "share_toggle"
    case BillingCheckout => "billing_checkout"
    case BillingAdminCorrection => "billing_admin_correction"
    case StoryboardGenerate => "storyboard_generate"
    case StoryboardSectionRegenerate => "storyboard_section_regenerate"
    case StoryboardShareToggle => "storyboard_share_toggle"
    case StoryboardDownloadUser => "storyboard_download_user"
  }

  function KeyString(k: Key): string {
    "ratelimit:" + Name(k.tier) + ":" + k.subject
  }

  /** Which tier a name of this length and these letters belongs to. */
  function TierNamed(name: string): Tier {
    var n := |name|;
    if n == 2 then Ip
    else if n == 4 then User
    else if n == 5 then Login
    else if n == 7 then Clarify
    else if n == 10 then if name[0] == 'w' then WebhookIp else if name[0] == 'p' then PdfExport else Generation
    else if n == 11 then if name[0] == 'p' then PublicView else GithubSync
    else if n == 12 then if name[0] == 'l' then LoginHourly else ShareToggle
    else if n == 13 then GithubExport
    else if n == 16 then if name[0] == 'g' then GithubRepoList else BillingCheckout
    else if n == 18 then AgentInstructions
    else if n == 19 then StoryboardGenerate
    else if n == 21 then GithubIncrementPush
    else if n == 22 then if name[11] == 'p' then StoryboardPublicView else StoryboardDownloadIp
    else if n == 23 then StoryboardShareToggle
    else if n == 24 then if name[0] == 'b' then BillingAdminCorrection else StoryboardDownloadUser
    else StoryboardSectionRegenerate
  }

  lemma NamesIdentify(t: Tier)
    ensures TierNamed(Name(t)) == t
  {}

  lemma ShortNamesHaveNoColon(t: Tier)
    requires |Name(t)| <= 13
    ensures ':' !in Name(t)
  {}

  lemma LongNamesHaveNoColon(t: Tier)
    requires |Name(t)| > 13
    ensures ':' !in Name(t)
  {}

  lemma NamesHaveNoColon(t: Tier)
    ensures ':' !in Name(t)
  {
    hide Name;
    if |Name(t)| <= 13 {
      ShortNamesHaveNoColon(t);
    } else {
      LongNamesHaveNoColon(t);
    }
  }

  /** The two limiters store a charge under a string; different keys never share one, whatever
      colons an address or a user id holds. */
  lemma KeyStringsIdentify(k1: Key, k2: Key)
    requires KeyString(k1) == KeyString(k2)
    ensures k1 == k2
  {
    hide Name, TierNamed;
    NamesHaveNoColon(k1.tier);
    NamesHaveNoColon(k2.tier);
    var n1, n2, s1, s2 := Name(k1.tier), Name(k2.tier), KeyString(k1), KeyString(k2);
    assert s1[10..] == n1 + ":" + k1.subject && s2[10..] == n2 + ":" + k2.subject;
    UpToColon(n1, k1.subject, n2, k2.subject);
    NamesIdentify(k1.tier);
    NamesIdentify(k2.tier);
  }

  lemma UpToColon(n1: string, rest1: string, n2: string, rest2: string)
    requires ':' !in n1 && ':' !in n2 && n1 + ":" + rest1 == n2 + ":" + rest2
    ensures n1 == n2 && rest1 == rest2
  {
    var whole := n1 + ":" + rest1;
    assert whole[|n1|] == ':' && whole[|n2|] == ':';
    assert forall i :: 0 <= i < |n1| ==> whole[i] == n1[i];
    assert forall i :: 0 <= i < |n2| ==> whole[i] == n2[i];
    assert |n1| == |n2|;
    assert n1 == whole[..|n1|] && n2 == whole[..|n2|];
    assert rest1 == whole[|n1| + 1..] && rest2 == whole[|n2| + 1..];
  }
}
