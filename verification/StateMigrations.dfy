/** Versioned state migration: the registered steps as a functional graph, the one path
    through it, and the round trip of the default step. */
module StateMigrations {
  import opened Prelude

  datatype Value = Null | Text(text: string) | Number(number: int) | Items(items: seq<Value>)
    | Fields(fields: map<string, Value>)

  type State = map<string, Value>

  const IMMUTABLE_FIELDS := ["tenant_id", "incident_id", "thread_id", "correlation_id", "employee_id", "device_id"]
  const MAX_MIGRATION_STEPS := 8
  const VERSION_FIELD := "state_version"

  datatype Step = Step(source: string, target: string, upgrade: State -> State, downgrade: State -> State,
                       description: string)

  datatype MigrationError = DuplicateOrCircular | NoContiguousPath | ImmutableFieldChanged(field: string)

  datatype MigrationEvent = MigrationEvent(source: string, target: string, description: string)

  /** `dict.get` without a default: an absent field reads like an empty one. */
  function Get(s: State, field: string): Value {
    if field in s then s[field] else Null
  }

  // ---- the graph of steps

  type Steps = map<string, Step>

  ghost predicate Registered(steps: Steps) {
    forall v | v in steps :: steps[v].source == v && steps[v].target != v
  }

  /** The version reached from `v` by exactly `n` registered steps. */
  function Follow(steps: Steps, v: string, n: nat): Option<string>
    decreases n
  {
    if n == 0 then Some(v)
    else if v in steps then Follow(steps, steps[v].target, n - 1)
    else None
  }

  /** The steps lead from `source` to `target` within the limit. */
  ghost predicate Leads(steps: Steps, source: string, target: string) {
    exists n: nat :: n <= 8 && Follow(steps, source, n) == Some(target)
  }

  /** Registered steps one after the other, leaving `source`, meeting no version twice and
      `target` only at the end. */
  ghost predicate IsPath(steps: Steps, p: seq<Step>, source: string, target: string) {
    && (forall i | 0 <= i < |p| :: p[i].source in steps && steps[p[i].source] == p[i])
    && (if p == [] then source == target else p[0].source == source && p[|p| - 1].target == target)
    && (forall i | 0 <= i < |p| - 1 :: p[i].target == p[i + 1].source)
    && (forall i | 0 <= i < |p| :: p[i].source != target)
    && (forall i, j | 0 <= i < j < |p| :: p[i].source != p[j].source)
  }

  lemma {:induction false} FollowStep(steps: Steps, v: string, n: nat)
    ensures Follow(steps, v, n + 1) == match Follow(steps, v, n)
                                       case Some(u) => if u in steps then Some(steps[u].target) else None
                                       case None => None
    decreases n
  {
    if n > 0 && v in steps {
      FollowStep(steps, steps[v].target, n - 1);
    }
  }

  /** A functional graph has at most one path between two versions. */
  lemma {:induction false} PathUnique(steps: Steps, p: seq<Step>, q: seq<Step>, source: string, target: string)
    requires Registered(steps) && IsPath(steps, p, source, target) && IsPath(steps, q, source, target)
    ensures p == q
    decreases |p|
  {
    if p != [] && q != [] {
      assert p[0] == q[0];
      PathTail(steps, p, source, target);
      PathTail(steps, q, source, target);
      PathUnique(steps, p[1..], q[1..], p[0].target, target);
      assert p == [p[0]] + p[1..] && q == [q[0]] + q[1..];
    }
  }

  lemma PathTail(steps: Steps, p: seq<Step>, source: string, target: string)
    requires IsPath(steps, p, source, target) && p != []
    ensures IsPath(steps, p[1..], p[0].target, target)
  {
    var rest := p[1..];
    forall i | 0 <= i < |rest| - 1 ensures rest[i].target == rest[i + 1].source {
      assert rest[i] == p[i + 1] && rest[i + 1] == p[i + 2];
    }
  }

  /** Once a version recurs, everything later has been seen before. */
  lemma {:induction false} CycleRepeats(steps: Steps, v: string, i: nat, k: nat, n: nat)
    requires i < k && Follow(steps, v, i).Some? && Follow(steps, v, i) == Follow(steps, v, k)
    ensures exists m: nat :: m < k && Follow(steps, v, n) == Follow(steps, v, m)
    decreases n
  {
    if n >= k {
      if n == k {
        assert Follow(steps, v, n) == Follow(steps, v, i);
      } else {
        CycleRepeats(steps, v, i, k, n - 1);
        var m: nat :| m < k && Follow(steps, v, n - 1) == Follow(steps, v, m);
        FollowStep(steps, v, n - 1);
        FollowStep(steps, v, m);
        assert Follow(steps, v, n) == Follow(steps, v, m + 1);
        if m + 1 == k {
          assert Follow(steps, v, n) == Follow(steps, v, i);
        }
      }
    } else {
      assert Follow(steps, v, n) == Follow(steps, v, n) && n < k;
    }
  }

  /** Nothing lies beyond a version without a step. */
  lemma {:induction false} EndsThere(steps: Steps, v: string, k: nat, n: nat)
    requires k < n && Follow(steps, v, k).Some? && Follow(steps, v, k).value !in steps
    ensures Follow(steps, v, n) == None
    decreases n
  {
    FollowStep(steps, v, n - 1);
    if n - 1 > k {
      EndsThere(steps, v, k, n - 1);
    }
  }

  /** What the search has established after `|result|` steps. */
  ghost predicate Searched(steps: Steps, source: string, target: string, result: seq<Step>, current: string,
                           visited: set<string>)
  {
    && Follow(steps, source, |result|) == Some(current)
    && (forall i: nat | i < |result| ::
          Follow(steps, source, i) == Some(result[i].source) && result[i].source in steps
            && steps[result[i].source] == result[i]
          && result[i].source != target)
    && (forall i | 0 <= i < |result| - 1 :: result[i].target == result[i + 1].source)
    && (forall i, j | 0 <= i < j < |result| :: result[i].source != result[j].source)
    && (if result == [] then current == source
        else result[0].source == source && result[|result| - 1].target == current)
    && (forall v :: v in visited <==> exists i: nat :: i < |result| && result[i].source == v)
  }

  class MigrationRegistry {
    var steps: Steps

    ghost predicate Valid()
      reads this
    {
      Registered(steps)
    }

    constructor ()
      ensures Valid() && steps == map[]
    {
      steps := map[];
    }

    method Register(step: Step) returns (r: Result<(), MigrationError>)
      requires Valid()
      modifies this
      ensures Valid()
      ensures r == if step.source !in old(steps) && step.source != step.target then Ok(()) else Err(DuplicateOrCircular)
      ensures steps == if r.Ok? then old(steps)[step.source := step] else old(steps)
    {
      if step.source in steps || step.source == step.target {
        return Err(DuplicateOrCircular);
      }
      steps := steps[step.source := step];
      return Ok(());
    }

    /** `path`: succeeds exactly when the steps lead there within the limit, and then
        returns the one path. */
    method Path(source: string, target: string) returns (r: Result<seq<Step>, MigrationError>)
      requires Valid()
      ensures r == Err(NoContiguousPath) <==> !Leads(steps, source, target)
      ensures r.Err? ==> r.error == NoContiguousPath
      ensures r.Ok? ==> IsPath(steps, r.value, source, target) && |r.value| <= 8
    {
      var result: seq<Step>, current, visited := [], source, {};
      while current != target
        invariant |result| <= MAX_MIGRATION_STEPS
        invariant Searched(steps, source, target, result, current, visited)
        decreases MAX_MIGRATION_STEPS - |result|
      {
        if current in visited || current !in steps || |result| >= MAX_MIGRATION_STEPS {
          NotLeading(steps, source, target, result, current, visited);
          return Err(NoContiguousPath);
        }
        SearchedOn(steps, source, target, result, current, visited);
        visited := visited + {current};
        var step := steps[current];
        result := result + [step];
        current := step.target;
      }
      return Ok(result);
    }

    /** `migrate`; `show` renders a version field that is not text. Fails without a path, or
        at the first identifying field that the upgrades along the path change. */
    method Migrate(state: State, target: string, show: Value -> string)
      returns (r: Result<(State, seq<MigrationEvent>), MigrationError>)
      requires Valid()
      ensures !Leads(steps, VersionOf(state, show), target) ==> r == Err(NoContiguousPath)
      ensures Leads(steps, VersionOf(state, show), target) ==>
                exists p :: IsPath(steps, p, VersionOf(state, show), target) && |p| <= 8
                  && r == Migrated(state, p)
    {
      var path := Path(VersionOf(state, show), target);
      if path.Err? {
        return Err(path.error);
      }
      var working, events := ApplyAll(state, path.value);
      var changed := FindChanged(state, working);
      if changed.Some? {
        return Err(ImmutableFieldChanged(changed.value));
      }
      return Ok((working, events));
    }
  }

  /** The result of migrating along a path. */
  function Migrated(s: State, p: seq<Step>): Result<(State, seq<MigrationEvent>), MigrationError> {
    match FirstChanged(s, Applied(s, p), IMMUTABLE_FIELDS)
    case Some(field) => Err(ImmutableFieldChanged(field))
    case None => Ok((Applied(s, p), EventsOf(p)))
  }

  /** The first of the fields that reads differently. */
  function FirstChanged(s: State, t: State, fields: seq<string>): Option<string>
    decreases |fields|
  {
    if fields == [] then None
    else if Get(t, fields[0]) != Get(s, fields[0]) then Some(fields[0])
    else FirstChanged(s, t, fields[1..])
  }

  /** The upgrades along a path, each followed by its version stamp. */
  method ApplyAll(state: State, p: seq<Step>) returns (working: State, events: seq<MigrationEvent>)
    ensures working == Applied(state, p) && events == EventsOf(p)
  {
    working, events := state, [];
    for i := 0 to |p|
      invariant working == Applied(state, p[..i]) && events == EventsOf(p[..i])
    {
      assert p[..i + 1][..i] == p[..i];
      working := p[i].upgrade(working)[VERSION_FIELD := Text(p[i].target)];
      events := events + [MigrationEvent(p[i].source, p[i].target, p[i].description)];
    }
    assert p[..|p|] == p;
  }

  method FindChanged(s: State, t: State) returns (r: Option<string>)
    ensures r == FirstChanged(s, t, IMMUTABLE_FIELDS)
  {
    var fields := IMMUTABLE_FIELDS;
    for i := 0 to |fields|
      invariant FirstChanged(s, t, fields[i..]) == FirstChanged(s, t, fields)
    {
      assert fields[i..][0] == fields[i] && fields[i..][1..] == fields[i + 1..];
      if Get(t, fields[i]) != Get(s, fields[i]) {
        return Some(fields[i]);
      }
    }
    return None;
  }

  lemma {:induction false} ChangedExactly(s: State, t: State, fields: seq<string>)
    ensures FirstChanged(s, t, fields).None? <==> forall f | f in fields :: Get(t, f) == Get(s, f)
    decreases |fields|
  {
    if fields != [] {
      ChangedExactly(s, t, fields[1..]);
      assert fields == [fields[0]] + fields[1..];
    }
  }

  lemma SearchedOn(steps: Steps, source: string, target: string, result: seq<Step>, current: string,
                   visited: set<string>)
    requires Registered(steps) && Searched(steps, source, target, result, current, visited)
    requires current != target && current !in visited && current in steps
    ensures Searched(steps, source, target, result + [steps[current]], steps[current].target, visited + {current})
  {
    FollowStep(steps, source, |result|);
    var longer := result + [steps[current]];
    forall v ensures v in visited + {current} <==> exists i: nat :: i < |longer| && longer[i].source == v {
      if v in visited {
        var i: nat :| i < |result| && result[i].source == v;
        assert longer[i].source == v;
      } else if v == current {
        assert longer[|result|].source == v;
      }
    }
  }

  /** The search gives up only where the steps do not lead to the target. */
  lemma NotLeading(steps: Steps, source: string, target: string, result: seq<Step>, current: string,
                   visited: set<string>)
    requires Searched(steps, source, target, result, current, visited) && current != target
    requires current in visited || current !in steps || |result| >= MAX_MIGRATION_STEPS
    ensures !Leads(steps, source, target)
  {
    var k := |result|;
    assert forall m: nat | m <= k :: Follow(steps, source, m).Some? && Follow(steps, source, m).value != target;
    forall n: nat | n <= MAX_MIGRATION_STEPS ensures Follow(steps, source, n) != Some(target) {
      if n > k {
        if current in visited {
          var i: nat :| i < k && result[i].source == current;
          CycleRepeats(steps, source, i, k, n);
        } else {
          EndsThere(steps, source, k, n);
        }
      }
    }
  }

  // ---- migrating along a path

  function VersionOf(s: State, show: Value -> string): string {
    if VERSION_FIELD !in s then ""
    else match s[VERSION_FIELD]
         case Text(t) => t
         case v => show(v)
  }

  function Applied(s: State, p: seq<Step>): State {
    if p == [] then s
    else
      var last := p[|p| - 1];
      last.upgrade(Applied(s, p[..|p| - 1]))[VERSION_FIELD := Text(last.target)]
  }

  function EventsOf(p: seq<Step>): seq<MigrationEvent> {
    if p == [] then []
    else
      var last := p[|p| - 1];
      EventsOf(p[..|p| - 1]) + [MigrationEvent(last.source, last.target, last.description)]
  }

  /** The identifying fields read the same in both states. */
  ghost predicate Preserved(s: State, t: State) {
    forall f | f in ["tenant_id", "incident_id", "thread_id", "correlation_id", "employee_id", "device_id"] ::
      GetIn(t, f) == GetIn(s, f) || {GetIn(t, f), GetIn(s, f)} == {None, Some(Null)}
  }

  /** Each upgrade works on the state the one before it left, stamped with its version. */
  ghost predicate Stages(states: seq<State>, s: State, p: seq<Step>) {
    && |states| == |p| + 1 && states[0] == s
    && forall i | 0 <= i < |p| :: states[i + 1] == p[i].upgrade(states[i])["state_version" := Text(p[i].target)]
  }

  lemma {:induction false} AppliedInStages(s: State, p: seq<Step>) returns (states: seq<State>)
    ensures Stages(states, s, p) && states[|p|] == Applied(s, p)
  {
    if p == [] {
      return [s];
    }
    var n := |p| - 1;
    var before := AppliedInStages(s, p[..n]);
    states := before + [Applied(s, p)];
    forall i | 0 <= i < |p|
      ensures states[i + 1] == p[i].upgrade(states[i])["state_version" := Text(p[i].target)]
    {
      if i < n {
        assert before[i + 1] == p[..n][i].upgrade(before[i])["state_version" := Text(p[..n][i].target)];
      }
    }
  }

  lemma {:induction false} EventsExactly(p: seq<Step>)
    ensures |EventsOf(p)| == |p|
    ensures forall i | 0 <= i < |p| ::
              EventsOf(p)[i] == MigrationEvent(p[i].source, p[i].target, p[i].description)
  {
    if p != [] {
      EventsExactly(p[..|p| - 1]);
    }
  }

  /** The `k`-th identifying field is the first to change. */
  ghost predicate ChangedFirst(s: State, t: State, k: nat, field: string) {
    var fields := ["tenant_id", "incident_id", "thread_id", "correlation_id", "employee_id", "device_id"];
    && k < 6 && field == fields[k] && Get(s, field) != Get(t, field)
    && forall j | 0 <= j < k :: Get(s, fields[j]) == Get(t, fields[j])
  }

  lemma {:induction false} FirstChangedExactly(s: State, t: State, fields: seq<string>)
    requires FirstChanged(s, t, fields).Some?
    ensures exists k: nat :: k < |fields| && fields[k] == FirstChanged(s, t, fields).value
              && Get(s, fields[k]) != Get(t, fields[k]) && forall j | 0 <= j < k ::
                   Get(s, fields[j]) == Get(t, fields[j])
    decreases |fields|
  {
    if Get(t, fields[0]) == Get(s, fields[0]) {
      FirstChangedExactly(s, t, fields[1..]);
      var k: nat :| k < |fields[1..]| && fields[1..][k] == FirstChanged(s, t, fields[1..]).value
                    && Get(s, fields[1..][k]) != Get(t, fields[1..][k])
                    && forall j | 0 <= j < k :: Get(s, fields[1..][j]) == Get(t, fields[1..][j]);
      assert forall j | 0 < j <= k :: fields[j] == fields[1..][j - 1];
      assert fields[k + 1] == fields[1..][k];
    }
  }

  /** The whole result of migrating along a path: the last stage with one event for each step,
      or the first identifying field that reads differently there. */
  lemma MigratedExactly(s: State, p: seq<Step>)
    ensures exists states :: (
                Stages(states, s, p)
                && match Migrated(s, p)
                   case Ok(r) =>
                     && r.0 == states[|p|] && Preserved(s, r.0) && |r.1| == |p|
                     && forall i | 0 <= i < |p| ::
                          r.1[i] == MigrationEvent(p[i].source, p[i].target, p[i].description)
                   case Err(ImmutableFieldChanged(field)) => exists k: nat :: ChangedFirst(s, states[|p|], k, field)
                   case Err(_) => false)
  {
    var states := AppliedInStages(s, p);
    EventsExactly(p);
    var last := Applied(s, p);
    ChangedExactly(s, last, IMMUTABLE_FIELDS);
    if Migrated(s, p).Err? {
      FirstChangedExactly(s, last, IMMUTABLE_FIELDS);
      var k: nat :| k < 6 && IMMUTABLE_FIELDS[k] == FirstChanged(s, last, IMMUTABLE_FIELDS).value
                    && Get(s, IMMUTABLE_FIELDS[k]) != Get(last, IMMUTABLE_FIELDS[k])
                    && forall j | 0 <= j < k :: Get(s, IMMUTABLE_FIELDS[j]) == Get(last, IMMUTABLE_FIELDS[j]);
      assert ChangedFirst(s, last, k, FirstChanged(s, last, IMMUTABLE_FIELDS).value);
    }
  }

  /** The version that a migration starts from. */
  lemma VersionReads(s: State, show: Value -> string)
    ensures match GetIn(s, "state_version")
            case None => VersionOf(s, show) == ""
            case Some(Text(t)) => VersionOf(s, show) == t
            case Some(v) => VersionOf(s, show) == show(v)
  {
  }

  lemma PreservedExactly(s: State, t: State)
    ensures FirstChanged(s, t, IMMUTABLE_FIELDS).None? <==> Preserved(s, t)
  {
    ChangedExactly(s, t, IMMUTABLE_FIELDS);
  }

  /** Whatever the upgrade functions do, a migration that succeeds ends at the target version
      with the identifying fields unchanged; and it succeeds unless one of them changes. */
  lemma MigratedVersion(steps: Steps, s: State, p: seq<Step>, target: string, show: Value -> string)
    requires IsPath(steps, p, VersionOf(s, show), target)
    ensures Migrated(s, p).Ok? <==> Preserved(s, Applied(s, p))
    ensures Migrated(s, p).Ok? ==>
              VersionOf(Migrated(s, p).value.0, show) == target && Preserved(s, Migrated(s, p).value.0)
    ensures Migrated(s, p).Ok? && p != [] ==> GetIn(Migrated(s, p).value.0, "state_version") == Some(Text(target))
  {
    PreservedExactly(s, Applied(s, p));
    hide Preserved, FirstChanged;
  }

  // ---- the default step

  function GetOr(s: State, field: string, otherwise: Value): Value {
    if field in s then s[field] else otherwise
  }

  function SetDefault(s: State, field: string, v: Value): State {
    if field in s then s else s[field := v]
  }

  function Upgrade090(s: State): State {
    var phase := GetOr(s, "stage", GetOr(s, "phase", Text("intake")));
    var renamed := (s - {"stage"})["phase" := phase];
    SetDefault(SetDefault(SetDefault(SetDefault(renamed, "pending_interrupt", Null), "retry_counts", Fields(map[])),
                          "errors", Items([])),
               "audit_event_ids", Items([]))
  }

  function Downgrade100(s: State): State {
    var stage := GetOr(s, "phase", GetOr(s, "stage", Text("intake")));
    ((s - {"phase"})["stage" := stage] - {"pending_interrupt"})[VERSION_FIELD := Text("0.9.0")]
  }

  function DefaultStep(): Step {
    Step("0.9.0", "1.0.0", Upgrade090, Downgrade100,
         "rename stage to phase and initialize durable interrupt/retry/error fields")
  }

  method DefaultRegistry() returns (registry: MigrationRegistry)
    ensures fresh(registry) && registry.Valid() && registry.steps == map["0.9.0" := DefaultStep()]
    ensures DefaultStep().source == "0.9.0" && DefaultStep().target == "1.0.0"
            && DefaultStep().description
               == "rename stage to phase and initialize durable interrupt/retry/error fields"
  {
    registry := new MigrationRegistry();
    var r := registry.Register(DefaultStep());
  }

  /** A state that a downgrade followed by a migration gives back. */
  predicate RoundTrips(s: State) {
    && "state_version" in s && s["state_version"] == Text("1.0.0")
    && "phase" in s && "stage" !in s
    && "pending_interrupt" in s && s["pending_interrupt"] == Null
    && "retry_counts" in s && "errors" in s && "audit_event_ids" in s
  }

  /** Migrating a downgraded state always succeeds, and restores it exactly when it is a
      1.0.0 state with its phase, retry, error and audit fields, no stage field, and no
      interrupt pending. */
  lemma DowngradeThenMigrate(s: State, show: Value -> string)
    ensures var old090 := Downgrade100(s);
            var steps: Steps := map["0.9.0" := DefaultStep()];
            && VersionOf(old090, show) == "0.9.0"
            && IsPath(steps, [DefaultStep()], "0.9.0", "1.0.0")
            && Preserved(old090, Applied(old090, [DefaultStep()]))
            && (Applied(old090, [DefaultStep()]) == s <==> RoundTrips(s))
  {
    var old090 := Downgrade100(s);
    var back := Applied(old090, [DefaultStep()]);
    assert Applied(old090, []) == old090;
    assert [DefaultStep()][..0] == [];
    assert back == Upgrade090(old090)[VERSION_FIELD := Text("1.0.0")];
    RestoredFields(s, back);
  }

  /** The state fields that the default step reads or writes. */
  lemma FieldNamesDiffer()
    ensures "phase" != "stage" && VERSION_FIELD !in {"stage", "phase", "pending_interrupt", "retry_counts", "errors",
                                                     "audit_event_ids"}
    ensures "pending_interrupt" !in {"stage", "phase", "retry_counts", "errors", "audit_event_ids"}
  {
  }

  lemma DowngradedField(s: State, f: string)
    ensures GetIn(Downgrade100(s), f)
         == if f == VERSION_FIELD then Some(Text("0.9.0"))
            else if f == "phase" || f == "pending_interrupt" then None
            else if f == "stage" then Some(GetOr(s, "phase", GetOr(s, "stage", Text("intake"))))
            else GetIn(s, f)
  {
  }

  lemma UpgradedField(s: State, f: string)
    ensures GetIn(Upgrade090(s), f)
         == if f == "stage" then None
            else if f == "phase" then Some(GetOr(s, "stage", GetOr(s, "phase", Text("intake"))))
            else if f == "pending_interrupt" then Some(GetOr(s, f, Null))
            else if f == "retry_counts" then Some(GetOr(s, f, Fields(map[])))
            else if f == "errors" || f == "audit_event_ids" then Some(GetOr(s, f, Items([])))
            else GetIn(s, f)
  {
  }

  lemma RestoredField(s: State, f: string)
    ensures GetIn(Upgrade090(Downgrade100(s))[VERSION_FIELD := Text("1.0.0")], f) == Restored(s, f)
  {
    hide Upgrade090, Downgrade100;
    var t := Downgrade100(s);
    UpgradedField(t, f);
    DowngradedField(s, f);
    DowngradedField(s, "stage");
    FieldNamesDiffer();
  }

  predicate Untouched(f: string) {
    f !in {VERSION_FIELD, "stage", "phase", "pending_interrupt", "retry_counts", "errors", "audit_event_ids"}
  }

  lemma UntouchedKept(s: State, f: string)
    requires Untouched(f)
    ensures GetIn(Downgrade100(s), f) == GetIn(s, f)
    ensures GetIn(Upgrade090(s)[VERSION_FIELD := Text("1.0.0")], f) == GetIn(s, f)
  {
  }

  lemma IdentityUntouched(i: nat)
    requires i < |IMMUTABLE_FIELDS|
    ensures Untouched(IMMUTABLE_FIELDS[i])
  {
  }

  lemma PreservedFields(s: State)
    ensures Preserved(Downgrade100(s), Upgrade090(Downgrade100(s))[VERSION_FIELD := Text("1.0.0")])
  {
    hide Downgrade100, Upgrade090, Untouched;
    var t := Downgrade100(s);
    forall f | f in IMMUTABLE_FIELDS ensures Get(Upgrade090(t)[VERSION_FIELD := Text("1.0.0")], f) == Get(t, f) {
      var i: nat :| i < |IMMUTABLE_FIELDS| && IMMUTABLE_FIELDS[i] == f;
      IdentityUntouched(i);
      UntouchedKept(t, f);
    }
  }

  lemma SameFields(s: State, t: State)
    requires forall f :: GetIn(s, f) == GetIn(t, f)
    ensures s == t
  {
    forall f ensures f in s <==> f in t {
      assert GetIn(s, f) == GetIn(t, f);
    }
    forall f | f in s ensures s[f] == t[f] {
      assert GetIn(s, f) == GetIn(t, f);
    }
  }

  lemma RestoredFields(s: State, back: State)
    requires back == Upgrade090(Downgrade100(s))[VERSION_FIELD := Text("1.0.0")]
    ensures Preserved(Downgrade100(s), back)
    ensures back == s <==> RoundTrips(s)
  {
    hide Upgrade090, Downgrade100, Preserved;
    PreservedFields(s);
    forall f ensures GetIn(back, f) == Restored(s, f) {
      RestoredField(s, f);
    }
    if RoundTrips(s) {
      SameFields(back, s);
    }
    if back == s {
      RestoredIsRoundTrip(s);
    }
  }

  lemma RestoredIsRoundTrip(s: State)
    requires forall f :: GetIn(s, f) == Restored(s, f)
    ensures RoundTrips(s)
  {
    assert GetIn(s, VERSION_FIELD) == Restored(s, VERSION_FIELD);
    assert GetIn(s, "stage") == Restored(s, "stage");
    assert GetIn(s, "phase") == Restored(s, "phase");
    assert GetIn(s, "pending_interrupt") == Restored(s, "pending_interrupt");
    assert GetIn(s, "retry_counts") == Restored(s, "retry_counts");
    assert GetIn(s, "errors") == Restored(s, "errors");
    assert GetIn(s, "audit_event_ids") == Restored(s, "audit_event_ids");
  }

  function GetIn(s: State, f: string): Option<Value> {
    if f in s then Some(s[f]) else None
  }

  /** Field by field, the result of a downgrade and a migration. */
  function Restored(s: State, f: string): Option<Value> {
    if f == VERSION_FIELD then Some(Text("1.0.0"))
    else if f == "stage" then None
    else if f == "phase" then Some(GetOr(s, "phase", GetOr(s, "stage", Text("intake"))))
    else if f == "pending_interrupt" then Some(Null)
    else if f == "retry_counts" then Some(GetOr(s, f, Fields(map[])))
    else if f == "errors" || f == "audit_event_ids" then Some(GetOr(s, f, Items([])))
    else GetIn(s, f)
  }
}
