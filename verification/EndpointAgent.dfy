/** The endpoint agent: registration that survives restarts, and the claim/run/report protocol. */
module EndpointAgent {
  import opened Strings

  // ---- configuration --------------------------------------------------------------------

  /** A set of optional settings: the environment variables, or what the config file holds. */
  datatype Settings = Settings(
    apiUrl: Option<string>, tenantId: Option<string>, enrollmentToken: Option<string>,
    deviceKey: Option<string>, deviceToken: Option<string>)

  datatype Config = Config(
    apiUrl: string, tenantId: string, enrollmentToken: string, deviceKey: string, deviceToken: Option<string>)

  /** A file that is missing or does not parse reads as the empty object. */
  datatype File = Unreadable | Holds(saved: Settings)

  const NOTHING := Settings(None, None, None, None, None)

  function OrElse(a: Option<string>, b: Option<string>): Option<string> {
    if a.Some? then a else b
  }

  function Get(a: Option<string>, b: Option<string>, default: string): string {
    if a.Some? then a.value else if b.Some? then b.value else default
  }

  function LoadConfig(env: Settings, file: File, hostKey: string): Config {
    var saved := if file.Holds? then file.saved else NOTHING;
    Config(
      Get(env.apiUrl, saved.apiUrl, "http://localhost:4110"),
      Get(env.tenantId, saved.tenantId, "dev-tenant"),
      Get(env.enrollmentToken, saved.enrollmentToken, "local-endpoint-enrollment-token"),
      Get(env.deviceKey, saved.deviceKey, hostKey),
      OrElse(env.deviceToken, saved.deviceToken))
  }

  function SavedForm(c: Config): File {
    Holds(Settings(Some(c.apiUrl), Some(c.tenantId), Some(c.enrollmentToken), Some(c.deviceKey), c.deviceToken))
  }

  /** `config.deviceToken` is truthy. */
  predicate HasToken(c: Config) {
    c.deviceToken.Some? && c.deviceToken.value != ""
  }

  /** Where a setting comes from: the environment variable if it is set, also to the empty string; else
      the file, if it can be read and has the setting; else the default. */
  ghost predicate From(env: Option<string>, saved: Option<string>, default: Option<string>, r: Option<string>) {
    && (env.Some? ==> r == env)
    && (env.None? && saved.Some? ==> r == saved)
    && (env.None? && saved.None? ==> r == default)
  }

  lemma Precedence(env: Settings, file: File, hostKey: string)
    ensures var c := LoadConfig(env, file, hostKey);
            var saved := if file.Unreadable? then NOTHING else file.saved;
      && From(env.apiUrl, saved.apiUrl, Some("http://localhost:4110"), Some(c.apiUrl))
      && From(env.tenantId, saved.tenantId, Some("dev-tenant"), Some(c.tenantId))
      && From(env.enrollmentToken, saved.enrollmentToken, Some("local-endpoint-enrollment-token"),
              Some(c.enrollmentToken))
      && From(env.deviceKey, saved.deviceKey, Some(hostKey), Some(c.deviceKey))
      && From(env.deviceToken, saved.deviceToken, None, c.deviceToken)
  {
  }

  /** Settings persist: after a config that was loaded under an environment is saved, loading under
      the same environment gives it back, unless the environment dictates the token. */
  lemma SavedConfigReloads(env: Settings, file: File, hostKey: string, token: string, otherHost: string)
    ensures var c := LoadConfig(env, file, hostKey).(deviceToken := Some(token));
      LoadConfig(env, SavedForm(c), otherHost) == c.(deviceToken := OrElse(env.deviceToken, Some(token)))
  {
  }

  // ---- registration across restarts -----------------------------------------------------

  /** How an attempt to register goes, should one be needed: it fails before an answer with a token
      arrives, or the token arrives and writing the file succeeds, or fails and leaves the file as
      it was or unreadable. */
  datatype Attempt = NoAnswer | Answer(token: string, save: Save)
  datatype Save = Written | Untouched | Ruined

  /** The config file, and how many answers with a token came in and how many of them were lost
      before they were in the file. */
  datatype Registry = Registry(file: File, answers: nat, lost: nat)

  function RegisterStep(env: Settings, hostKey: string, r: Registry, a: Attempt): Registry {
    var c := LoadConfig(env, r.file, hostKey);
    if HasToken(c) || a.NoAnswer? then r
    else match a.save
      case Written => Registry(SavedForm(c.(deviceToken := Some(a.token))), r.answers + 1, r.lost)
      case Untouched => Registry(r.file, r.answers + 1, r.lost + 1)
      case Ruined => Registry(Unreadable, r.answers + 1, r.lost + 1)
  }

  function Restarts(env: Settings, hostKey: string, file: File, attempts: seq<Attempt>): Registry {
    if attempts == [] then Registry(file, 0, 0)
    else RegisterStep(env, hostKey, Restarts(env, hostKey, file, attempts[..|attempts| - 1]), attempts[|attempts| - 1])
  }

  /** What registering does to the settings: a start registers exactly if it has no token; it goes on
      with its settings and the token it was granted, and these are what the next start loads, but
      for a token that the environment dictates. A start that has a token goes on as it is, and one
      that fails does not go on. */
  lemma RegistrationKeepsSettings(env: Settings, hostKey: string, file: File, a: Attempt, otherHost: string)
    ensures var c, r := LoadConfig(env, file, hostKey), Registered(env, hostKey, file, a);
            var step := RegisterStep(env, hostKey, Registry(file, 0, 0), a);
            var next, granted := step.file, !HasToken(c) && a.Answer?;
      && step.answers == (if granted then 1 else 0)
      && step.lost == (if granted && a.save != Written then 1 else 0)
      && RegisterPosts(env, hostKey, file) == (if HasToken(c) then [] else [Register(c.deviceKey)])
      && (HasToken(c) ==> r == Some(c) && next == file)
      && (!HasToken(c) ==> (r.Some? <==> a.Answer? && a.save == Written))
      && (!HasToken(c) && r.Some? ==>
            && r.value == Config(c.apiUrl, c.tenantId, c.enrollmentToken, c.deviceKey, Some(a.token))
            && LoadConfig(env, next, otherHost) == r.value.(deviceToken := OrElse(env.deviceToken, Some(a.token))))
      && (!HasToken(c) && r.None? ==> next == if granted && a.save == Ruined then Unreadable else file)
  {
  }

  /** A saved registration keeps the next start from registering again exactly when the token is
      not empty and the environment does not set the token variable to the empty string. */
  lemma RegistrationSticks(env: Settings, hostKey: string, file: File, a: Attempt)
    requires !HasToken(LoadConfig(env, file, hostKey)) && a.Answer? && a.save == Written
    ensures var after := RegisterStep(env, hostKey, Registry(file, 0, 0), a).file;
      HasToken(LoadConfig(env, after, hostKey)) <==> a.token != "" && env.deviceToken != Some("")
  {
  }

  /** The start saves what it is granted, and yet the next start has no token: the token is empty,
      or the environment replaces it by the empty string. */
  predicate Useless(env: Settings, hostKey: string, file: File, a: Attempt) {
    && !HasToken(LoadConfig(env, file, hostKey))
    && a.Answer? && a.save == Written
    && (a.token == "" || env.deviceToken == Some(""))
  }

  function UselessSaves(env: Settings, hostKey: string, file: File, attempts: seq<Attempt>): nat {
    if attempts == [] then 0
    else
      var before, a := attempts[..|attempts| - 1], attempts[|attempts| - 1];
      UselessSaves(env, hostKey, file, before)
      + if Useless(env, hostKey, Restarts(env, hostKey, file, before).file, a) then 1 else 0
  }

  function EmptyTokens(attempts: seq<Attempt>): nat {
    if attempts == [] then 0
    else
      var a := attempts[|attempts| - 1];
      EmptyTokens(attempts[..|attempts| - 1]) + if a.Answer? && a.token == "" then 1 else 0
  }

  /** Over any number of starts, whatever fails and whatever the server answers: at most one of the
      registrations that it grants is of use, and once one is, no start registers again; all others
      were lost between the answer and the file, or saved without giving the next start a token.
      Unless the environment sets the token to the empty string, the latter are no more than the
      answers with an empty token. */
  lemma {:induction false} RegistersOnce(env: Settings, hostKey: string, file: File, attempts: seq<Attempt>)
    ensures var r, useless := Restarts(env, hostKey, file, attempts), UselessSaves(env, hostKey, file, attempts);
      && r.lost + useless <= r.answers <= r.lost + useless + 1
      && (r.answers == r.lost + useless + 1 ==> HasToken(LoadConfig(env, r.file, hostKey)))
      && (HasToken(LoadConfig(env, file, hostKey)) ==> r == Registry(file, 0, 0))
      && (env.deviceToken != Some("") ==> useless <= EmptyTokens(attempts))
  {
    if attempts != [] {
      var before, a := attempts[..|attempts| - 1], attempts[|attempts| - 1];
      RegistersOnce(env, hostKey, file, before);
      SaveSticks(env, hostKey, Restarts(env, hostKey, file, before), a);
    }
  }

  lemma SaveSticks(env: Settings, hostKey: string, r: Registry, a: Attempt)
    ensures var next := RegisterStep(env, hostKey, r, a);
      && (HasToken(LoadConfig(env, r.file, hostKey)) ==> next == r)
      && (!HasToken(LoadConfig(env, r.file, hostKey)) && a.Answer? && a.save == Written ==>
            (HasToken(LoadConfig(env, next.file, hostKey)) <==> !Useless(env, hostKey, r.file, a)))
  {
  }

  /** Under an empty token variable the file is written and never used: every start that gets
      through registers the device anew. */
  lemma {:induction false} EmptyVariableRegistersAlways(
    env: Settings, hostKey: string, file: File, attempts: seq<Attempt>)
    requires env.deviceToken == Some("")
    requires forall a :: a in attempts ==> a.Answer? && a.save == Written
    ensures var r := Restarts(env, hostKey, file, attempts);
      r.answers == |attempts| && r.lost == 0
  {
    if attempts != [] {
      var before, a := attempts[..|attempts| - 1], attempts[|attempts| - 1];
      assert a in attempts && forall b :: b in before ==> b in attempts;
      EmptyVariableRegistersAlways(env, hostKey, file, before);
    }
  }

  // ---- one command ----------------------------------------------------------------------

  datatype Status = Succeeded | StatusFailed

  datatype Post =
    | Register(deviceKey: string)
    | Heartbeat(token: string)
    | Claim(token: string)
    | Snapshot(kind: string)
    | Report(id: string, nonce: string, status: Status, errorCode: Option<string>)

  /** The `command` of a claim answer; a missing field reads as the empty string. */
  datatype Command = Command(id: string, kind: string, nonce: string)

  predicate WellFormed(c: Command) {
    c.id != "" && c.kind != "" && c.nonce != ""
  }

  /** A diagnostic throws, or yields its kind and a payload, as every collector does: whether the
      payload says `ok: false`, and its result status. */
  datatype Diagnostic = Throws | Yields(kind: string, notOk: bool, resultStatus: Option<string>)

  /** Which of the posts of one round come back without an error. */
  datatype Network = Network(heartbeat: bool, claim: bool, snapshot: bool, report: bool, secondReport: bool)

  function Reports(posts: seq<Post>): seq<Post> {
    if posts == [] then []
    else
      var p := posts[|posts| - 1];
      Reports(posts[..|posts| - 1]) + (if p.Report? then [p] else [])
  }

  lemma {:induction false} ReportsAppend(a: seq<Post>, b: seq<Post>)
    ensures Reports(a + b) == Reports(a) + Reports(b)
  {
    if b == [] {
      assert a + b == a;
    } else {
      ReportsAppend(a, b[..|b| - 1]);
      assert (a + b)[..|a + b| - 1] == a + b[..|b| - 1];
    }
  }

  /** The first report is sent unless the diagnostic or the post of its snapshot threw. */
  predicate ReportsResult(d: Diagnostic, net: Network) {
    d.Yields? && (d.kind == "remediation" || net.snapshot)
  }

  function FirstReport(c: Command, d: Diagnostic): Post
    requires d.Yields?
  {
    if d.notOk then
      Report(c.id, c.nonce, StatusFailed, Some(if d.resultStatus.Some? then d.resultStatus.value else "command_failed"))
    else Report(c.id, c.nonce, Succeeded, None)
  }

  function FailureReport(c: Command): Post {
    Report(c.id, c.nonce, StatusFailed, Some("diagnostic_failed"))
  }

  datatype Ending = NothingToDo | Ran | Threw

  /** What `claimAndRun` posts. */
  function CommandPosts(token: string, c: Command, d: Diagnostic, net: Network): seq<Post> {
    [Claim(token)] + if net.claim && WellFormed(c) then DiagnosticPosts(c, d, net) else []
  }

  function DiagnosticPosts(c: Command, d: Diagnostic, net: Network): seq<Post> {
    (if d.Yields? && d.kind != "remediation" then [Snapshot(d.kind)] else [])
    + (if ReportsResult(d, net) then [FirstReport(c, d)] else [])
    + (if ReportsResult(d, net) && net.report then [] else [FailureReport(c)])
  }

  function CommandEnding(c: Command, d: Diagnostic, net: Network): Ending {
    if !net.claim then Threw
    else if !WellFormed(c) then NothingToDo
    else if (ReportsResult(d, net) && net.report) || net.secondReport then Ran
    else Threw
  }

  /** A well-formed command is reported once or twice, always under its own id and nonce; twice
      exactly when the post of a first report threw, and then the second says that it failed. An
      answer without a well-formed command is never reported. */
  lemma ReportProtocol(token: string, c: Command, d: Diagnostic, net: Network)
    ensures var sent := Reports(CommandPosts(token, c, d, net));
      && (!(net.claim && WellFormed(c)) <==> sent == [])
      && (net.claim && WellFormed(c) ==>
            && 1 <= |sent| <= 2
            && (forall i :: 0 <= i < |sent| ==> sent[i].Report? && sent[i].id == c.id && sent[i].nonce == c.nonce)
            && (sent[0].status == Succeeded <==> ReportsResult(d, net) && !d.notOk)
            && (sent[0].status == Succeeded ==> sent[0].errorCode == None)
            && (ReportsResult(d, net) && d.notOk ==>
                  && (d.resultStatus.Some? ==> sent[0].errorCode == d.resultStatus)
                  && (d.resultStatus.None? ==> sent[0].errorCode == Some("command_failed")))
            && (!ReportsResult(d, net) ==> sent[0].errorCode == Some("diagnostic_failed"))
            && (|sent| == 2 <==> ReportsResult(d, net) && !net.report)
            && (|sent| == 2 ==> sent[1].status == StatusFailed && sent[1].errorCode == Some("diagnostic_failed")))
  {
    SentReports(token, c, d, net);
  }

  /** Every round claims first; a snapshot goes out exactly for a diagnostic that is not a
      remediation, and no success is reported unless it got through; the round counts as run
      exactly when its last report got through, and is idle exactly when there was no command. */
  lemma CommandOutcome(token: string, c: Command, d: Diagnostic, net: Network, kind: string)
    ensures var posts := CommandPosts(token, c, d, net);
            var sent, end := Reports(posts), CommandEnding(c, d, net);
      && posts[0] == Claim(token)
      && (Snapshot(kind) in posts <==>
            net.claim && WellFormed(c) && d.Yields? && d.kind == kind && kind != "remediation")
      && (Snapshot(kind) in posts ==> posts[1] == Snapshot(kind))
      && |posts| == 1 + (if |posts| > 1 && posts[1].Snapshot? then 1 else 0) + |sent|
      && (forall k :: 0 <= k < |sent| && sent[k].Report? && sent[k].status == Succeeded ==>
            d.Yields? && (d.kind == "remediation" || (Snapshot(d.kind) in posts && net.snapshot)))
      && (end == Ran <==> sent != [] && if |sent| == 2 || !ReportsResult(d, net) then net.secondReport else net.report)
      && (end == NothingToDo <==> net.claim && !WellFormed(c))
  {
    SentReports(token, c, d, net);
    if net.claim && WellFormed(c) {
      DiagnosticSnapshots(c, d, net, kind);
      if d.Yields? { DiagnosticSnapshots(c, d, net, d.kind); }
    }
  }

  lemma DiagnosticSnapshots(c: Command, d: Diagnostic, net: Network, kind: string)
    ensures Snapshot(kind) in DiagnosticPosts(c, d, net) <==> d.Yields? && d.kind == kind && kind != "remediation"
  {
  }

  lemma SentReports(token: string, c: Command, d: Diagnostic, net: Network)
    ensures Reports(CommandPosts(token, c, d, net)) ==
              if net.claim && WellFormed(c) then
                (if ReportsResult(d, net) then [FirstReport(c, d)] else [])
                + (if ReportsResult(d, net) && net.report then [] else [FailureReport(c)])
              else []
  {
    OnePost(Claim(token));
    if net.claim && WellFormed(c) {
      ReportsAppend([Claim(token)], DiagnosticPosts(c, d, net));
      DiagnosticReports(c, d, net);
    } else {
      assert [Claim(token)] + [] == [Claim(token)];
    }
  }

  lemma DiagnosticReports(c: Command, d: Diagnostic, net: Network)
    ensures Reports(DiagnosticPosts(c, d, net)) ==
              (if ReportsResult(d, net) then [FirstReport(c, d)] else [])
              + (if ReportsResult(d, net) && net.report then [] else [FailureReport(c)])
  {
    var snap := if d.Yields? && d.kind != "remediation" then [Snapshot(d.kind)] else [];
    var first := if ReportsResult(d, net) then [FirstReport(c, d)] else [];
    var second := if ReportsResult(d, net) && net.report then [] else [FailureReport(c)];
    ReportsAppend(snap + first, second);
    ReportsAppend(snap, first);
    OnePost(FailureReport(c));
    if d.Yields? {
      OnePost(Snapshot(d.kind));
      OnePost(FirstReport(c, d));
    }
  }

  lemma OnePost(p: Post)
    ensures Reports([p]) == if p.Report? then [p] else []
  {
    assert [p][..0] == [];
  }

  /** What `register` returns; `None` when it throws. */
  function Registered(env: Settings, hostKey: string, file: File, a: Attempt): Option<Config> {
    var c := LoadConfig(env, file, hostKey);
    if HasToken(c) then Some(c)
    else if a.Answer? && a.save == Written then Some(c.(deviceToken := Some(a.token)))
    else None
  }

  function RegisterPosts(env: Settings, hostKey: string, file: File): seq<Post> {
    var c := LoadConfig(env, file, hostKey);
    if HasToken(c) then [] else [Register(c.deviceKey)]
  }

  function TokenOf(c: Config): string {
    if c.deviceToken.Some? then c.deviceToken.value else ""
  }

  /** What `runOnce` posts once `register` has returned or thrown. */
  function AuthenticatedPosts(config: Option<Config>, c: Command, d: Diagnostic, net: Network): seq<Post> {
    if config.None? then []
    else
      [Heartbeat(TokenOf(config.value))]
      + if net.heartbeat then CommandPosts(TokenOf(config.value), c, d, net) else []
  }

  /** How `runOnce` ends. */
  function RoundEnding(config: Option<Config>, c: Command, d: Diagnostic, net: Network): Ending {
    if config.None? || !net.heartbeat then Threw else CommandEnding(c, d, net)
  }

  /** Nothing is posted under a device identity before registration has returned; every heartbeat and
      claim carries the token it returned; this token is empty exactly when the config had none and
      the server answered with an empty one; a failed heartbeat keeps the round from claiming. */
  lemma IdentityComesFirst(
    env: Settings, hostKey: string, file: File, a: Attempt, c: Command, d: Diagnostic, net: Network)
    ensures var config := Registered(env, hostKey, file, a);
            var posts := AuthenticatedPosts(config, c, d, net);
      && (posts != [] <==> config.Some?)
      && (config.Some? ==>
            (HasToken(config.value) <==> HasToken(LoadConfig(env, file, hostKey)) || (a.Answer? && a.token != "")))
      && (forall p :: p in posts ==>
            !p.Register? && (p.Heartbeat? || p.Claim? ==> Some(p.token) == config.value.deviceToken))
      && (config.Some? ==> posts[0] == Heartbeat(TokenOf(config.value)))
      && (config.Some? ==> posts[1..] == if net.heartbeat then CommandPosts(TokenOf(config.value), c, d, net) else [])
      && (RoundEnding(config, c, d, net) == Threw <==>
            config.None? || !net.heartbeat || CommandEnding(c, d, net) == Threw)
      && (RoundEnding(config, c, d, net) == NothingToDo ==> net.claim && !WellFormed(c))
  {
    var config := Registered(env, hostKey, file, a);
    if config.Some? { CommandPostsCarry(TokenOf(config.value), c, d, net); }
  }

  lemma CommandPostsCarry(token: string, c: Command, d: Diagnostic, net: Network)
    ensures forall p :: p in CommandPosts(token, c, d, net) ==>
              !p.Register? && !p.Heartbeat? && (p.Claim? ==> p.token == token)
  {
  }

  class Agent {
    var file: File
    var posts: seq<Post>
    ghost var answers: nat
    ghost var lost: nat

    ghost function State(): Registry
      reads this
    {
      Registry(file, answers, lost)
    }

    constructor (file: File)
      ensures this.file == file && posts == [] && State() == Registry(file, 0, 0)
    {
      this.file := file;
      posts, answers, lost := [], 0, 0;
    }

    /** `register`; `None` when it threw. */
    method DoRegister(env: Settings, hostKey: string, a: Attempt) returns (next: Option<Config>)
      modifies this
      ensures State() == RegisterStep(env, hostKey, old(State()), a)
      ensures next == Registered(env, hostKey, old(file), a)
      ensures posts == old(posts) + RegisterPosts(env, hostKey, old(file))
    {
      var config := LoadConfig(env, file, hostKey);
      if config.deviceToken.Some? && config.deviceToken.value != "" {
        return Some(config);
      }
      posts := posts + [Register(config.deviceKey)];
      if a.NoAnswer? {
        return None;
      }
      answers := answers + 1;
      var saved := config.(deviceToken := Some(a.token));
      match a.save {
        case Written =>
          file := SavedForm(saved);
          return Some(saved);
        case Untouched =>
          lost := lost + 1;
        case Ruined =>
          file := Unreadable;
          lost := lost + 1;
      }
      return None;
    }

    /** `claimAndRun` */
    method ClaimAndRun(token: string, claimed: Command, d: Diagnostic, net: Network) returns (end: Ending)
      modifies this`posts
      ensures posts == old(posts) + CommandPosts(token, claimed, d, net)
      ensures end == CommandEnding(claimed, d, net)
    {
      posts := posts + [Claim(token)];
      if !net.claim {
        return Threw;
      }
      if claimed.id == "" || claimed.kind == "" || claimed.nonce == "" {
        return NothingToDo;
      }
      var threw := d.Throws?;
      if !threw && d.kind != "remediation" {
        posts := posts + [Snapshot(d.kind)];
        threw := !net.snapshot;
      }
      if !threw {
        posts := posts + [FirstReport(claimed, d)];
        threw := !net.report;
      }
      if !threw {
        return Ran;
      }
      posts := posts + [FailureReport(claimed)];
      return if net.secondReport then Ran else Threw;
    }

    /** `runOnce` */
    method RunOnce(env: Settings, hostKey: string, a: Attempt, claimed: Command, d: Diagnostic, net: Network)
      returns (end: Ending)
      modifies this
      ensures State() == RegisterStep(env, hostKey, old(State()), a)
      ensures posts == old(posts) + RegisterPosts(env, hostKey, old(file))
                       + AuthenticatedPosts(Registered(env, hostKey, old(file), a), claimed, d, net)
      ensures end == RoundEnding(Registered(env, hostKey, old(file), a), claimed, d, net)
    {
      var config := DoRegister(env, hostKey, a);
      ghost var before := posts;
      if config.None? {
        return Threw;
      }
      var token := TokenOf(config.value);
      posts := posts + [Heartbeat(token)];
      if !net.heartbeat {
        assert [Heartbeat(token)] + [] == [Heartbeat(token)];
        return Threw;
      }
      end := ClaimAndRun(token, claimed, d, net);
      Assoc(before, [Heartbeat(token)], CommandPosts(token, claimed, d, net));
    }
  }

  lemma Assoc(a: seq<Post>, b: seq<Post>, c: seq<Post>)
    ensures a + b + c == a + (b + c)
  {
  }
}
