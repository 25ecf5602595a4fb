/** The probe's deployment (infrastructure/src/ping/index.py): the target
    record that becomes the probe's input, the names of the probe's Lambda
    resources, and the scheduler that creates, per target, a dead-letter
    queue, a five-minute schedule and an invoke permission. Cloud resources
    are modelled by their ids and the settings the code gives them;
    provider-assigned values (ARNs) are referred to by the id of the
    resource they belong to. */
module PingInfra {
  import opened Wrappers
  import opened Json
  import Probe
  import Ping

  // ------------------------------------------------------------ PingTarget

  /** `PingTarget(name, url, environment)`; its dict is `Dict`. */
  datatype PingTarget = PingTarget(name: string, url: string, environment: string)

  /** `PingTarget.dict`: the three constructor arguments under the keys
      name, url, environment, in that order. */
  function Dict(t: PingTarget): (ms: seq<Member>)
    ensures |ms| == 3 && ms[0].key == "name" && ms[1].key == "url" && ms[2].key == "environment"
    ensures Lookup(ms, "name") == Some(JStr(t.name))
    ensures Lookup(ms, "url") == Some(JStr(t.url))
    ensures Lookup(ms, "environment") == Some(JStr(t.environment))
  {
    var ms := [Member("name", JStr(t.name)), Member("url", JStr(t.url)), Member("environment", JStr(t.environment))];
    assert ms[..2] == [ms[0], ms[1]] && ms[..2][..1] == [ms[0]];
    assert Lookup(ms, "name") == Lookup(ms[..2], "name") == Lookup(ms[..2][..1], "name");
    ms
  }

  /** `getInput`: the dict as JSON text. */
  function GetInput(t: PingTarget): string {
    Dumps(JObj(Dict(t)))
  }

  /** The input decodes back to the dict. */
  lemma GetInputDecodes(t: PingTarget)
    ensures Parse(GetInput(t)) == Some(JObj(Dict(t)))
  {
    ParseDumps(JObj(Dict(t)));
  }

  /** Distinct targets give distinct inputs. */
  lemma GetInputInjective(t: PingTarget, u: PingTarget)
    requires GetInput(t) == GetInput(u)
    ensures t == u
  {
    GetInputDecodes(t);
    GetInputDecodes(u);
    assert Lookup(Dict(t), "name") == Lookup(Dict(u), "name");
    assert Lookup(Dict(t), "url") == Lookup(Dict(u), "url");
    assert Lookup(Dict(t), "environment") == Lookup(Dict(u), "environment");
  }

  /** The input is what the probe reads: decoded as the invocation event,
      it makes the probe GET the target's url, and a 200 response submits
      the latency dimensioned by the target's name and environment. */
  lemma InputDrivesProbe(t: PingTarget, r: Probe.Response)
    ensures Parse(GetInput(t)) == Some(JObj(Dict(t)))
    ensures var event := Dict(t);
            var o := Ping.Handler(event, r);
            Probe.HasDimensions(event) &&
            o.effects[0] == Probe.Get(JStr(t.url), Ping.Headers) &&
            (r.statusCode == 200 ==>
               o.effects[1] == Probe.PutMetricData("Ping", [Probe.LatencyDatum(JStr(t.name), JStr(t.environment), r.elapsed)]))
  {
    GetInputDecodes(t);
  }

  // ------------------------------------------------------------ PingLambda

  const LambdaHandler := "ping.lambda_handler"
  const LambdaRuntime := "python3.9"

  /** The Lambda function `PingLambda` creates. Its code is the object
      `s3Key` of `bucket`; `role` and `sourceCodeHash` are provider-assigned
      and held as the ids of the execution role and of the asset. */
  datatype LambdaFunction = LambdaFunction(id: string, functionName: string, bucket: string, s3Key: string,
                                           handler: string, runtime: string, architectures: seq<string>,
                                           role: string, sourceCodeHash: string)

  /** The id endings of the resources `PingLambda` creates, in order: asset,
      bucket, bucket object, execution role, four policy attachments, and
      the function. */
  const LambdaIdEndings: seq<string> := ["-asset", "-bucket", "-bucket-object", "-lambda-exec",
                                        "-lambda-role-managed-policy", "-lambda-lambda-managed-policy",
                                        "-lambda-cloudwatch-managed-policy", "-lambda-sqs-managed-policy",
                                        "-lambda"]

  /** The ids of `PingLambda`'s resources. */
  function LambdaIds(name: string, suffix: string): (ids: seq<string>)
    ensures |ids| == |LambdaIdEndings|
    ensures forall i :: 0 <= i < |ids| ==> ids[i] == name + suffix + LambdaIdEndings[i]
  {
    seq(|LambdaIdEndings|, i requires 0 <= i < |LambdaIdEndings| => name + suffix + LambdaIdEndings[i])
  }

  /** `PingLambda`'s function: named after the construct with "-lambda",
      its code the bucket object (keyed by the asset's file name) in the
      bucket named `name + suffix`, running the probe's handler under the
      execution role, and hashed as the asset. */
  function PingLambda(name: string, suffix: string): (f: LambdaFunction)
    ensures f.functionName == name + suffix + "-lambda" && f.id == f.functionName
    ensures f.id == LambdaIds(name, suffix)[8]
    ensures f.bucket == name + suffix && f.s3Key == LambdaIds(name, suffix)[2]
    ensures f.handler == LambdaHandler && f.runtime == LambdaRuntime && f.architectures == ["arm64"]
    ensures f.role == LambdaIds(name, suffix)[3] && f.role == name + suffix + "-lambda-exec"
    ensures f.sourceCodeHash == LambdaIds(name, suffix)[0] && f.sourceCodeHash == name + suffix + "-asset"
  {
    LambdaFunction(name + suffix + "-lambda", name + suffix + "-lambda", name + suffix, name + suffix + "-bucket-object",
                   "ping.lambda_handler", "python3.9", ["arm64"],
                   name + suffix + "-lambda-exec", name + suffix + "-asset")
  }

  /** Two strings with a common prefix are equal exactly when what follows
      the prefix is. */
  lemma CancelPrefix(p: string, a: string, b: string)
    requires p + a == p + b
    ensures a == b
  {
    assert a == (p + a)[|p|..];
    assert b == (p + b)[|p|..];
  }

  /** Two strings with a common ending are equal exactly when what comes
      before it is. */
  lemma CancelSuffix(a: string, b: string, k: string)
    requires a + k == b + k
    ensures a == b
  {
    assert a == (a + k)[..|a|];
    assert b == (b + k)[..|b|];
  }

  /** The Lambda's nine resources have pairwise distinct ids. */
  lemma LambdaIdsDistinct(name: string, suffix: string)
    ensures var ids := LambdaIds(name, suffix);
            forall i, j :: 0 <= i < j < |ids| ==> ids[i] != ids[j]
  {
    var ids := LambdaIds(name, suffix);
    forall i, j | 0 <= i < j < |ids|
      ensures ids[i] != ids[j]
    {
      if ids[i] == ids[j] {
        CancelPrefix(name + suffix, LambdaIdEndings[i], LambdaIdEndings[j]);
      }
    }
  }

  // ------------------------------------------------------ PingLambdaScheduler

  const ScheduleExpression := "rate(5 minutes)"
  const FlexibleWindowMode := "OFF"

  /** The endings of the per-target ids. */
  const DlqEnding := "-dlq"
  const ScheduleEnding := "-schedule"
  const PermissionEnding := "-lambda-permission"

  /** The id of one of a target's resources: `name + suffix + "-" +
      target name + ending`. */
  function TargetId(name: string, suffix: string, t: PingTarget, ending: string): string {
    name + suffix + "-" + t.name + ending
  }

  /** A schedule: what to invoke, under which role, with which input, when,
      and where failed deliveries go (the id of the dead-letter queue). */
  datatype Schedule = Schedule(id: string, expression: string, flexibleWindow: string,
                               functionName: string, roleArn: string, input: string, deadLetterQueue: string)

  /** What the scheduler registers in the stack, per target in this order. */
  datatype Resource =
    | Queue(id: string)
    | ScheduleResource(schedule: Schedule)
    | Permission(id: string, functionName: string, principal: string, action: string, sourceSchedule: string)

  /** The schedule of one target. */
  function ScheduleFor(name: string, suffix: string, t: PingTarget, f: LambdaFunction): (s: Schedule)
    ensures s.id == TargetId(name, suffix, t, ScheduleEnding)
    ensures s.expression == ScheduleExpression && s.flexibleWindow == FlexibleWindowMode
    ensures s.functionName == f.functionName && s.roleArn == f.role && s.input == GetInput(t)
    ensures s.deadLetterQueue == TargetId(name, suffix, t, DlqEnding)
  {
    Schedule(TargetId(name, suffix, t, ScheduleEnding), ScheduleExpression, FlexibleWindowMode,
             f.functionName, f.role, GetInput(t), TargetId(name, suffix, t, DlqEnding))
  }

  /** The three resources of one target: its queue, its schedule, and the
      permission letting the scheduler service invoke the function from
      that schedule. */
  function TargetResources(name: string, suffix: string, t: PingTarget, f: LambdaFunction): (rs: seq<Resource>)
    ensures |rs| == 3 && rs[1].ScheduleResource? && rs[2].Permission?
    ensures rs[1].schedule == ScheduleFor(name, suffix, t, f)
    ensures rs[0] == Queue(rs[1].schedule.deadLetterQueue)
    ensures rs[2].sourceSchedule == rs[1].schedule.id && rs[2].functionName == f.functionName
  {
    [Queue(TargetId(name, suffix, t, DlqEnding)),
     ScheduleResource(ScheduleFor(name, suffix, t, f)),
     Permission(TargetId(name, suffix, t, PermissionEnding), f.functionName,
                "scheduler.amazonaws.com", "lambda:InvokeFunction", TargetId(name, suffix, t, ScheduleEnding))]
  }

  /** Everything registered for a list of targets, target by target. */
  function Registered(name: string, suffix: string, ts: seq<PingTarget>, f: LambdaFunction): (rs: seq<Resource>)
    ensures |rs| == 3 * |ts|
    decreases |ts|
  {
    if |ts| == 0 then []
    else Registered(name, suffix, ts[..|ts| - 1], f) + TargetResources(name, suffix, ts[|ts| - 1], f)
  }

  /** The schedules for a list of targets, one per target in order. */
  function Schedules(name: string, suffix: string, ts: seq<PingTarget>, f: LambdaFunction): (ss: seq<Schedule>)
    ensures |ss| == |ts|
    ensures forall i :: 0 <= i < |ts| ==> ss[i] == ScheduleFor(name, suffix, ts[i], f)
  {
    seq(|ts|, i requires 0 <= i < |ts| => ScheduleFor(name, suffix, ts[i], f))
  }

  /** Target `i`'s resources sit at positions `3i`, `3i + 1`, `3i + 2`. */
  lemma {:induction false} RegisteredAt(name: string, suffix: string, ts: seq<PingTarget>, f: LambdaFunction, i: nat, k: nat)
    requires i < |ts| && k < 3
    ensures Registered(name, suffix, ts, f)[3 * i + k] == TargetResources(name, suffix, ts[i], f)[k]
    decreases |ts|
  {
    var init := ts[..|ts| - 1];
    var front := Registered(name, suffix, init, f);
    var back := TargetResources(name, suffix, ts[|ts| - 1], f);
    assert Registered(name, suffix, ts, f) == front + back;
    if i < |ts| - 1 {
      RegisteredAt(name, suffix, init, f, i, k);
      assert init[i] == ts[i];
      assert 3 * i + k < |front|;
    } else {
      assert 3 * i + k == |front| + k;
    }
  }

  /** Taking one more target appends its schedule and its resources. */
  lemma TargetsSnoc(name: string, suffix: string, ts: seq<PingTarget>, f: LambdaFunction, i: nat)
    requires i < |ts|
    ensures Schedules(name, suffix, ts[..i + 1], f) == Schedules(name, suffix, ts[..i], f) + [ScheduleFor(name, suffix, ts[i], f)]
    ensures Registered(name, suffix, ts[..i + 1], f) == Registered(name, suffix, ts[..i], f) + TargetResources(name, suffix, ts[i], f)
  {
    assert ts[..i + 1][..i] == ts[..i];
  }

  class PingLambdaScheduler {
    var schedules: seq<Schedule>
    /** The resources registered in the enclosing stack, in order. */
    var registered: seq<Resource>

    /** The loop over the targets: queue, schedule (appended to
        `schedules`) and permission, for each target in turn. */
    constructor (name: string, suffix: string, pingTargets: seq<PingTarget>, pingLambda: LambdaFunction)
      ensures schedules == Schedules(name, suffix, pingTargets, pingLambda)
      ensures registered == Registered(name, suffix, pingTargets, pingLambda)
    {
      schedules := [];
      registered := [];
      new;
      for i := 0 to |pingTargets|
        invariant schedules == Schedules(name, suffix, pingTargets[..i], pingLambda)
        invariant registered == Registered(name, suffix, pingTargets[..i], pingLambda)
      {
        var pingTarget := pingTargets[i];
        var queue := Queue(name + suffix + "-" + pingTarget.name + "-dlq");
        var schedule := Schedule(name + suffix + "-" + pingTarget.name + "-schedule", "rate(5 minutes)", "OFF",
                                 pingLambda.functionName, pingLambda.role, GetInput(pingTarget), queue.id);
        schedules := schedules + [schedule];
        var permission := Permission(name + suffix + "-" + pingTarget.name + "-lambda-permission",
                                     pingLambda.functionName, "scheduler.amazonaws.com", "lambda:InvokeFunction", schedule.id);
        registered := registered + [queue, ScheduleResource(schedule), permission];
        assert schedule == ScheduleFor(name, suffix, pingTarget, pingLambda);
        assert [queue, ScheduleResource(schedule), permission] == TargetResources(name, suffix, pingTarget, pingLambda);
        TargetsSnoc(name, suffix, pingTargets, pingLambda, i);
      }
      assert pingTargets[..|pingTargets|] == pingTargets;
    }
  }

  // ------------------------------------------------------------ properties

  /** One schedule per target, in target order, each every five minutes
      with no flexible window, invoking the probe under its role with the
      target's input and sending failures to the target's own queue. */
  lemma OneSchedulePerTarget(name: string, suffix: string, ts: seq<PingTarget>, f: LambdaFunction, i: nat)
    requires i < |ts|
    ensures var ss := Schedules(name, suffix, ts, f);
            |ss| == |ts| &&
            ss[i].expression == "rate(5 minutes)" && ss[i].flexibleWindow == "OFF" &&
            ss[i].functionName == f.functionName && ss[i].roleArn == f.role &&
            ss[i].input == GetInput(ts[i]) &&
            ss[i].deadLetterQueue == ResourceId(Registered(name, suffix, ts, f)[3 * i]) &&
            Registered(name, suffix, ts, f)[3 * i + 1] == ScheduleResource(ss[i])
  {
    var ss := Schedules(name, suffix, ts, f);
    assert ss[i] == ScheduleFor(name, suffix, ts[i], f);
    TargetQueueAndSchedule(name, suffix, ts, f, i);
  }

  /** Target `i`'s first two resources are the queue its schedule names and
      the schedule itself. */
  lemma TargetQueueAndSchedule(name: string, suffix: string, ts: seq<PingTarget>, f: LambdaFunction, i: nat)
    requires i < |ts|
    ensures var s := ScheduleFor(name, suffix, ts[i], f);
            Registered(name, suffix, ts, f)[3 * i] == Queue(s.deadLetterQueue) &&
            Registered(name, suffix, ts, f)[3 * i + 1] == ScheduleResource(s)
  {
    RegisteredAt(name, suffix, ts, f, i, 0);
    RegisteredAt(name, suffix, ts, f, i, 1);
  }

  /** Per-target ids never collide across kinds (they end differently), and
      within a kind they collide only for targets of the same name. */
  lemma TargetIdInjective(name: string, suffix: string, t: PingTarget, u: PingTarget, e: string, g: string)
    requires e in {DlqEnding, ScheduleEnding, PermissionEnding} && g in {DlqEnding, ScheduleEnding, PermissionEnding}
    requires TargetId(name, suffix, t, e) == TargetId(name, suffix, u, g)
    ensures e == g && t.name == u.name
  {
    var a := TargetId(name, suffix, t, e);
    var b := TargetId(name, suffix, u, g);
    assert a[|a| - 1] == e[|e| - 1];
    assert b[|b| - 1] == g[|g| - 1];
    assert e == g;
    assert a == (name + suffix + "-" + t.name) + e;
    assert b == (name + suffix + "-" + u.name) + e;
    CancelSuffix(name + suffix + "-" + t.name, name + suffix + "-" + u.name, e);
    CancelPrefix(name + suffix + "-", t.name, u.name);
  }

  /** Hence, when the targets' names are distinct, all the resources the
      scheduler registers have distinct ids: resource `k` of target `i`
      and resource `l` of target `j` share an id only when they are the
      same resource. */
  lemma RegisteredIdsDistinct(name: string, suffix: string, ts: seq<PingTarget>, f: LambdaFunction,
                              i: nat, k: nat, j: nat, l: nat)
    requires forall a, b :: 0 <= a < b < |ts| ==> ts[a].name != ts[b].name
    requires i < |ts| && j < |ts| && k < 3 && l < 3
    requires (i, k) != (j, l)
    ensures var rs := Registered(name, suffix, ts, f);
            ResourceId(rs[3 * i + k]) != ResourceId(rs[3 * j + l])
  {
    RegisteredIdAt(name, suffix, ts, f, i, k);
    RegisteredIdAt(name, suffix, ts, f, j, l);
    if i < j {
      assert ts[i].name != ts[j].name;
    } else if j < i {
      assert ts[j].name != ts[i].name;
    } else {
      EndingsDiffer(k, l);
    }
    if TargetId(name, suffix, ts[i], Ending(k)) == TargetId(name, suffix, ts[j], Ending(l)) {
      TargetIdInjective(name, suffix, ts[i], ts[j], Ending(k), Ending(l));
    }
  }

  /** The id of resource `k` of target `i`. */
  lemma RegisteredIdAt(name: string, suffix: string, ts: seq<PingTarget>, f: LambdaFunction, i: nat, k: nat)
    requires i < |ts| && k < 3
    ensures ResourceId(Registered(name, suffix, ts, f)[3 * i + k]) == TargetId(name, suffix, ts[i], Ending(k))
  {
    RegisteredAt(name, suffix, ts, f, i, k);
    TargetResourceId(name, suffix, ts[i], f, k);
  }

  lemma TargetResourceId(name: string, suffix: string, t: PingTarget, f: LambdaFunction, k: nat)
    requires k < 3
    ensures ResourceId(TargetResources(name, suffix, t, f)[k]) == TargetId(name, suffix, t, Ending(k))
  {
  }

  lemma EndingsDiffer(k: nat, l: nat)
    requires k < 3 && l < 3 && k != l
    ensures Ending(k) != Ending(l)
  {
    assert DlqEnding[1] != ScheduleEnding[1];
    assert |DlqEnding| != |PermissionEnding| && |ScheduleEnding| != |PermissionEnding|;
  }

  /** The id of a registered resource. */
  function ResourceId(r: Resource): string {
    match r
    case Queue(id) => id
    case ScheduleResource(s) => s.id
    case Permission(id, _, _, _, _) => id
  }

  /** The id ending of the `k`-th resource of a target. */
  function Ending(k: nat): (e: string)
    requires k < 3
    ensures e in {DlqEnding, ScheduleEnding, PermissionEnding}
  {
    if k == 0 then DlqEnding else if k == 1 then ScheduleEnding else PermissionEnding
  }
}
