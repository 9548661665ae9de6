/** One telemetry batch through the policy: resources and records dropped, stripped, labelled and counted in place. */
module Intake {
  import opened Items

  const I64_MAX: nat := 0x7FFF_FFFF_FFFF_FFFF

  // ---- A batch ----

  datatype Value =
    | Text(text: string) | Raw(length: nat) | Many(values: seq<Value>) | Pairs(pairs: seq<Attribute>) | Scalar

  datatype Attribute = Attribute(key: string, value: Option<Value>)

  type Attributes = seq<Attribute>

  datatype Span = Span(name: string, attributes: Attributes, events: seq<Attributes>, links: seq<Attributes>)

  datatype LogRecord = LogRecord(body: Option<Value>, eventName: string, attributes: Attributes)

  /** A summary's points carry no exemplars. */
  datatype Point = Point(attributes: Attributes, exemplars: seq<Attributes>)

  datatype Metric = Metric(name: string, metadata: Attributes, points: Option<seq<Point>>)

  datatype Scope<R> = Scope(scope: Option<Attributes>, records: seq<R>)

  datatype Group<R> = Group(resource: Option<Attributes>, scopes: seq<Scope<R>>)

  datatype Batch =
    | Traces(spans: seq<Group<Span>>) | Logs(logs: seq<Group<LogRecord>>) | Metrics(metrics: seq<Group<Metric>>)

  datatype Place = AtResource | AtSpan | AtSpanEvent | AtLogRecord | AtDataPoint

  datatype DropReason = UnknownService | InstanceId | AttributeTooLarge | RateLimitedInstance | MetricName

  /** The lists and caps of the policy, whatever they say. */
  datatype Policy = Policy(serviceNames: set<string>, gatewayLabels: set<string>, capDefault: nat, capLogBody: nat,
                           capFor: string -> nat, attributeAllowed: (string, Place, string) -> bool,
                           metricAllowed: string -> bool, isInstanceId: string -> bool,
                           instanceIdRequired: string -> bool, clientVersion: Option<string> -> string)

  datatype Context = Context(source: string, originHost: Option<string>, uaFamily: string, uaMajor: string,
      country: Option<string>)

  const INSTANCE_ID: string := "thunderforge.instance.id"
  const SERVICE_NAME: string := "service.name"

  // ---- Sizes ----

  /** How long the longest text or byte string anywhere in a value is. */
  function ValueLen(v: Value): nat
    decreases v
  {
    match v
    case Text(s) => |s|
    case Raw(n) => n
    case Many(vs) => LongestValue(vs)
    case Pairs(ps) => LongestPair(ps)
    case Scalar => 0
  }

  function LongestValue(vs: seq<Value>): nat
    decreases vs
  {
    if vs == [] then 0 else Max(ValueLen(vs[0]), LongestValue(vs[1..]))
  }

  function LongestPair(ps: seq<Attribute>): nat
    decreases ps
  {
    if ps == [] then 0 else Max(Max(|ps[0].key|, if ps[0].value.Some? then ValueLen(ps[0].value.value) else 0),
      LongestPair(ps[1..]))
  }

  /** Some string or byte run in the value, however deep, is this long. */
  ghost predicate HasRun(v: Value, n: nat)
    decreases v
  {
    match v
    case Text(s) => n == |s|
    case Raw(length) => n == length
    case Many(vs) => exists i :: 0 <= i < |vs| && HasRun(vs[i], n)
    case Pairs(ps) => exists i ::
      0 <= i < |ps| && (n == |ps[i].key| || (ps[i].value.Some? && HasRun(ps[i].value.value, n)))
    case Scalar => false
  }

  /** The measured length exceeds a cap exactly when some run does. */
  lemma LongerThanCapExactly(v: Value, cap: nat)
    ensures ValueLen(v) > cap <==> exists n: nat :: n > cap && HasRun(v, n)
  {
    ValueLenIsLongest(v);
    assert ValueLen(v) > cap ==> HasRun(v, ValueLen(v));
  }

  lemma {:induction false} ValueLenIsLongest(v: Value)
    ensures forall n: nat :: HasRun(v, n) ==> n <= ValueLen(v)
    ensures ValueLen(v) > 0 ==> HasRun(v, ValueLen(v))
    decreases v, 0
  {
    match v
    case Many(vs) => LongestValueIs(vs);
    case Pairs(ps) => LongestPairIs(ps);
    case _ =>
  }

  lemma {:induction false} LongestValueIs(vs: seq<Value>)
    ensures forall i, n: nat :: 0 <= i < |vs| && HasRun(vs[i], n) ==> n <= LongestValue(vs)
    ensures LongestValue(vs) > 0 ==> exists i :: 0 <= i < |vs| && HasRun(vs[i], LongestValue(vs))
    decreases vs, 1
  {
    if vs != [] {
      ValueLenIsLongest(vs[0]);
      LongestValueIs(vs[1..]);
      forall i, n: nat | 0 <= i < |vs| && HasRun(vs[i], n) ensures n <= LongestValue(vs) {
        if i > 0 {
          assert vs[1..][i - 1] == vs[i];
        }
      }
    }
  }

  lemma {:induction false} LongestPairIs(ps: seq<Attribute>)
    ensures forall i :: 0 <= i < |ps| ==> |ps[i].key| <= LongestPair(ps)
    ensures forall i, n: nat :: 0 <= i < |ps| && ps[i].value.Some? && HasRun(ps[i].value.value, n) ==>
            n <= LongestPair(ps)
    ensures LongestPair(ps) > 0 ==> HasRun(Pairs(ps), LongestPair(ps))
    decreases ps, 1
  {
    if ps != [] {
      if ps[0].value.Some? {
        ValueLenIsLongest(ps[0].value.value);
      }
      LongestPairIs(ps[1..]);
      var rest, longest := LongestPair(ps[1..]), LongestPair(ps);
      forall i | 0 <= i < |ps|
        ensures |ps[i].key| <= longest
        ensures forall n: nat :: ps[i].value.Some? && HasRun(ps[i].value.value, n) ==> n <= longest
      {
        if i > 0 {
          assert ps[1..][i - 1] == ps[i];
        }
      }
      if longest == rest && rest > 0 {
        var i :| 0 <= i < |ps[1..]|
          && (rest == |ps[1..][i].key| || (ps[1..][i].value.Some? && HasRun(ps[1..][i].value.value, rest)));
        assert ps[i + 1] == ps[1..][i];
      }
    }
  }

  predicate TooLarge(p: Policy, attributes: Attributes) {
    exists a :: a in attributes
        && (|a.key| > p.capDefault || (a.value.Some? && ValueLen(a.value.value) > p.capFor(a.key)))
  }

  predicate AnyTooLarge(p: Policy, lists: seq<Attributes>) { exists l :: l in lists && TooLarge(p, l) }

  function Find(attributes: Attributes, key: string): Option<Attribute> {
    if attributes == [] then None
    else if attributes[0].key == key then Some(attributes[0])
    else Find(attributes[1..], key)
  }

  function AsText(a: Option<Attribute>): Option<string> {
    if a.Some? && a.value.value.Some? && a.value.value.value.Text? then Some(a.value.value.value.text) else None
  }

  // ---- The count of what happens ----

  datatype Outcome = Outcome(reasons: seq<DropReason>, rejected: nat, kept: nat, stripped: nat,
                             checkedResources: nat, instanceLimited: nat, retryAfter: Option<real>)

  const NOTHING_YET := Outcome([], 0, 0, 0, 0, 0, None)

  function Drop(out: Outcome, reason: DropReason, records: nat): Outcome {
    out.(reasons := if reason in out.reasons then out.reasons else out.reasons + [reason],
         rejected := out.rejected + Min(records, I64_MAX))
  }

  predicate AllInstanceLimited(out: Outcome) { out.checkedResources > 0 && out.instanceLimited == out.checkedResources }

  // ---- Stripping ----

  function Strip(p: Policy, attributes: Attributes, service: string, place: Place): (left: Attributes)
    ensures |left| <= |attributes|
  {
    if attributes == [] then []
    else
      var last := attributes[|attributes| - 1];
      Strip(p, attributes[..|attributes| - 1], service, place) +
      if p.attributeAllowed(service, place, last.key) then [last] else []
  }

  lemma {:induction false} StripIs(p: Policy, attributes: Attributes, service: string, place: Place)
    ensures forall a :: a in Strip(p, attributes, service, place) <==>
                        a in attributes && p.attributeAllowed(service, place, a.key)
  {
    if attributes != [] {
      StripIs(p, attributes[..|attributes| - 1], service, place);
      assert attributes == attributes[..|attributes| - 1] + [attributes[|attributes| - 1]];
    }
  }

  /** Nothing listed is lost or doubled. */
  lemma {:induction false} StripKeepsListed(p: Policy, attributes: Attributes, service: string, place: Place,
                                            a: Attribute)
    ensures multiset(Strip(p, attributes, service, place))[a] ==
            if p.attributeAllowed(service, place, a.key) then multiset(attributes)[a] else 0
  {
    if attributes != [] {
      StripKeepsListed(p, attributes[..|attributes| - 1], service, place, a);
      assert attributes == attributes[..|attributes| - 1] + [attributes[|attributes| - 1]];
    }
  }

  function StripAll(p: Policy, lists: seq<Attributes>, service: string, place: Place): seq<Attributes> {
    seq(|lists|, i requires 0 <= i < |lists| => Strip(p, lists[i], service, place))
  }

  function Emptied(lists: seq<Attributes>): seq<Attributes> { seq(|lists|, i => []) }

  function CountAll(lists: seq<Attributes>): nat {
    if lists == [] then 0 else CountAll(lists[..|lists| - 1]) + |lists[|lists| - 1]|
  }

  /** Remove what is not listed, in place, and say how many went. */
  method StripInPlace(p: Policy, attributes: Attributes, service: string, place: Place)
    returns (left: Attributes, removed: nat)
    ensures left == Strip(p, attributes, service, place) && removed == |attributes| - |left|
  {
    left := [];
    for i := 0 to |attributes|
      invariant left == Strip(p, attributes[..i], service, place)
    {
      assert attributes[..i + 1][..i] == attributes[..i];
      if p.attributeAllowed(service, place, attributes[i].key) {
        left := left + [attributes[i]];
      }
    }
    assert attributes[..|attributes|] == attributes;
    removed := |attributes| - |left|;
  }

  lemma {:induction false} StripAllShrinks(p: Policy, lists: seq<Attributes>, service: string, place: Place)
    ensures CountAll(StripAll(p, lists, service, place)) <= CountAll(lists)
  {
    if lists != [] {
      var n := |lists| - 1;
      StripAllShrinks(p, lists[..n], service, place);
      assert StripAll(p, lists, service, place)[..n] == StripAll(p, lists[..n], service, place);
    }
  }

  lemma {:induction false} NoneLeft(lists: seq<Attributes>)
    ensures CountAll(Emptied(lists)) == 0
  {
    if lists != [] {
      NoneLeft(lists[..|lists| - 1]);
      assert Emptied(lists)[..|lists| - 1] == Emptied(lists[..|lists| - 1]);
    }
  }

  // ---- One record ----

  /** What the policy makes of one record: what is left of it, and what was counted. */
  datatype Treated<R> = Treated(left: Option<R>, kept: nat, drops: seq<(DropReason, nat)>, stripped: nat)

  function TreatSpan(p: Policy, service: string, s: Span): Treated<Span> {
    if |s.name| > p.capDefault || TooLarge(p, s.attributes) || AnyTooLarge(p, s.events) then
      Treated(None, 0, [(AttributeTooLarge, 1)], 0)
    else
      var left := Span(s.name, Strip(p, s.attributes, service, AtSpan), StripAll(p, s.events, service, AtSpanEvent),
        Emptied(s.links));
      StripAllShrinks(p, s.events, service, AtSpanEvent);
      NoneLeft(s.links);
      Treated(Some(left), 1, [], SpanAttributes(s) - SpanAttributes(left))
  }

  function SpanAttributes(s: Span): nat { |s.attributes| + CountAll(s.events) + CountAll(s.links) }

  function TreatLog(p: Policy, service: string, r: LogRecord): Treated<LogRecord> {
    if (r.body.Some? && ValueLen(r.body.value) > p.capLogBody) || |r.eventName| > p.capDefault
      || TooLarge(p, r.attributes) then
      Treated(None, 0, [(AttributeTooLarge, 1)], 0)
    else
      var left := r.(attributes := Strip(p, r.attributes, service, AtLogRecord));
      Treated(Some(left), 1, [], |r.attributes| - |left.attributes|)
  }

  function TreatPoint(p: Policy, service: string, q: Point): Treated<Point> {
    if TooLarge(p, q.attributes) then Treated(None, 0, [(AttributeTooLarge, 1)], 0)
    else
      var left := Point(Strip(p, q.attributes, service, AtDataPoint), Emptied(q.exemplars));
      NoneLeft(q.exemplars);
      Treated(Some(left), 1, [], PointAttributes(q) - PointAttributes(left))
  }

  function PointAttributes(q: Point): nat { |q.attributes| + CountAll(q.exemplars) }

  /** The points of a metric one by one. */
  function TreatPoints(p: Policy, service: string, points: seq<Point>): (t: Treated<seq<Point>>)
    ensures t.left.Some?
  {
    if points == [] then Treated(Some([]), 0, [], 0)
    else
      var before := TreatPoints(p, service, points[..|points| - 1]);
      var last := TreatPoint(p, service, points[|points| - 1]);
      Treated(Some(before.left.value + if last.left.Some? then [last.left.value] else []),
              before.kept + last.kept, before.drops + last.drops, before.stripped + last.stripped)
  }

  function TreatMetric(p: Policy, service: string, m: Metric): Treated<Metric> {
    if !p.metricAllowed(m.name) then Treated(None, 0, [(MetricName, PointsIn(m))], 0)
    else if m.points == None then Treated(Some(m.(metadata := [])), 0, [], 0)
    else
      var t := TreatPoints(p, service, m.points.value);
      Treated(Some(Metric(m.name, [], t.left)), t.kept, t.drops, t.stripped)
  }

  function PointsIn(m: Metric): nat { if m.points.Some? then |m.points.value| else 0 }

  // ---- A batch of any signal ----

  function Note<R>(out: Outcome, t: Treated<R>): Outcome
  {
    DropAll(out.(kept := out.kept + t.kept, stripped := out.stripped + t.stripped), t.drops)
  }

  function DropAll(out: Outcome, drops: seq<(DropReason, nat)>): Outcome {
    if drops == [] then out
    else
      var last := drops[|drops| - 1];
      Drop(DropAll(out, drops[..|drops| - 1]), last.0, last.1)
  }

  function Records<R>(records: seq<R>, treat: R -> Treated<R>, out: Outcome): (seq<R>, Outcome) {
    if records == [] then ([], out)
    else
      var (left, o) := Records(records[..|records| - 1], treat, out);
      var t := treat(records[|records| - 1]);
      (left + Listed(t.left), Note(o, t))
  }

  /** A scope keeps its name and version but no attributes, and of its records what the policy leaves. */
  function OneScope<R>(s: Scope<R>, treat: R -> Treated<R>, out: Outcome): (Scope<R>, Outcome) {
    var o := out.(stripped := out.stripped + if s.scope.Some? then |s.scope.value| else 0);
    var (records, o') := Records(s.records, treat, o);
    (Scope(if s.scope.Some? then Some([]) else None, records), o')
  }

  function Scopes<R>(scopes: seq<Scope<R>>, treat: R -> Treated<R>, out: Outcome): (seq<Scope<R>>, Outcome) {
    if scopes == [] then ([], out)
    else
      var (left, o) := Scopes(scopes[..|scopes| - 1], treat, out);
      var (kept, o') := OneScope(scopes[|scopes| - 1], treat, o);
      (left + [kept], o')
  }

  // ---- One resource ----

  function ServiceOf(attributes: Attributes): string {
    var name := AsText(Find(attributes, SERVICE_NAME));
    if name.Some? then name.value else ""
  }

  /** The content checks: the service, and the instance to charge if there is one. */
  function Content(p: Policy, attributes: Attributes): Result<(string, Option<string>), DropReason> {
    var service, instance := ServiceOf(attributes), Find(attributes, INSTANCE_ID);
    if service !in p.serviceNames then Err(UnknownService)
    else if instance.Some? && (AsText(instance) == None || !p.isInstanceId(AsText(instance).value)) then Err(InstanceId)
    else if instance == None && p.instanceIdRequired(service) then Err(InstanceId)
    else if TooLarge(p, attributes) then Err(AttributeTooLarge)
    else Ok((service, if instance.Some? then AsText(instance) else None))
  }

  function TextAttribute(key: string, text: string): Attribute { Attribute(key, Some(Text(text))) }

  function Labels(ctx: Context, version: string): Attributes {
    [TextAttribute("thunderforge.ingress", "public"), TextAttribute("thunderforge.source", ctx.source)]
    + (if ctx.originHost.Some? then [TextAttribute("thunderforge.origin.host", ctx.originHost.value)] else [])
    + [TextAttribute("thunderforge.client.version", version),
       TextAttribute("thunderforge.user_agent.family", ctx.uaFamily),
       TextAttribute("thunderforge.user_agent.major", ctx.uaMajor)]
    + (if ctx.country.Some? then [TextAttribute("thunderforge.country", ctx.country.value)] else [])
  }

  /** Without the sender's own labels of gateway names, except the checked instance id. */
  function Unlabelled(p: Policy, attributes: Attributes): Attributes {
    if attributes == [] then []
    else
      (if attributes[0].key == INSTANCE_ID || attributes[0].key !in p.gatewayLabels then [attributes[0]] else []) +
      Unlabelled(p, attributes[1..])
  }

  lemma {:induction false} UnlabelledIs(p: Policy, attributes: Attributes)
    ensures forall a :: a in Unlabelled(p, attributes) <==>
                        a in attributes && (a.key == INSTANCE_ID || a.key !in p.gatewayLabels)
  {
    if attributes != [] {
      UnlabelledIs(p, attributes[1..]);
      assert attributes == [attributes[0]] + attributes[1..];
    }
  }

  function VersionOf(p: Policy, attributes: Attributes): string {
    p.clientVersion(AsText(Find(attributes, "service.version")))
  }

  function Labelled(p: Policy, ctx: Context, service: string, attributes: Attributes): Attributes {
    Strip(p, Unlabelled(p, attributes), service, AtResource) + Labels(ctx, VersionOf(p, attributes))
  }

  /** How the instance buckets answer the last of the ids asked so far: a wait, or none. */
  type Answers = seq<string> -> Option<real>

  function Longer(a: Option<real>, wait: real): Option<real> { if a.Some? && a.value >= wait then a else Some(wait) }

  /** Charge an instance if there is one: the wait it is answered with, if any, and the ids charged by then. */
  function Charge(limiter: Answers, instance: Option<string>, asked: seq<string>): (Option<real>, seq<string>) {
    if instance == None then (None, asked)
    else (limiter(asked + [instance.value]), asked + [instance.value])
  }

  function Limited(out: Outcome, wait: real): Outcome {
    out.(instanceLimited := out.instanceLimited + 1, retryAfter := Longer(out.retryAfter, wait))
  }

  function StrippedFrom(p: Policy, service: string, attributes: Attributes): nat {
    |Unlabelled(p, attributes)| - |Strip(p, Unlabelled(p, attributes), service, AtResource)|
  }

  /** Check and label one resource that holds `records`; `asked` are the ids charged so far. */
  function Checked(p: Policy, ctx: Context, limiter: Answers, resource: Option<Attributes>, records: nat,
                   out: Outcome, asked: seq<string>)
    : (Option<(string, Attributes)>, Outcome, seq<string>)
  {
    var attributes := if resource.Some? then resource.value else [];
    match Content(p, attributes)
    case Err(reason) => (None, Drop(out, reason, records), asked)
    case Ok((service, instance)) =>
      var o := out.(checkedResources := out.checkedResources + 1);
      var (wait, asked') := Charge(limiter, instance, asked);
      if wait.Some? then (None, Drop(Limited(o, wait.value), RateLimitedInstance, records), asked')
      else
        (Some((service, Labelled(p, ctx, service, attributes))),
         o.(stripped := o.stripped + StrippedFrom(p, service, attributes)), asked')
  }

  function RecordWeight<R>(records: seq<R>, weight: R -> nat): nat {
    if records == [] then 0 else RecordWeight(records[..|records| - 1], weight) + weight(records[|records| - 1])
  }

  function ScopeWeight<R>(scopes: seq<Scope<R>>, weight: R -> nat): nat {
    if scopes == [] then 0
    else ScopeWeight(scopes[..|scopes| - 1], weight) + RecordWeight(scopes[|scopes| - 1].records, weight)
  }

  function GroupWeight<R>(groups: seq<Group<R>>, weight: R -> nat): nat {
    if groups == [] then 0
    else GroupWeight(groups[..|groups| - 1], weight) + ScopeWeight(groups[|groups| - 1].scopes, weight)
  }

  /** How one signal's records are treated and counted. */
  datatype Signal<!R> = Signal(treat: (string, R) -> Treated<R>, weight: R -> nat)

  function ForService<R>(sig: Signal<R>, service: string): R -> Treated<R> { r => sig.treat(service, r) }

  /** One resource with everything under it: dropped whole, or what the policy leaves of it. */
  function OneGroup<R>(p: Policy, ctx: Context, limiter: Answers, sig: Signal<R>, g: Group<R>, out: Outcome,
                       asked: seq<string>)
    : (Option<Group<R>>, Outcome, seq<string>)
  {
    var (passed, o, asked') := Checked(p, ctx, limiter, g.resource, ScopeWeight(g.scopes, sig.weight), out, asked);
    var (kept, o') := Kept(sig, g, passed, o);
    (kept, o', asked')
  }

  /** What is left of a group whose resource passed its checks as `passed`, or did not. */
  function Kept<R>(sig: Signal<R>, g: Group<R>, passed: Option<(string, Attributes)>,
                   out: Outcome): (Option<Group<R>>, Outcome) {
    if passed == None then (None, out)
    else
      var (scopes, o) := Scopes(g.scopes, ForService(sig, passed.value.0), out);
      (Some(Group(Some(passed.value.1), scopes)), o)
  }

  function Groups<R>(p: Policy, ctx: Context, limiter: Answers, sig: Signal<R>, groups: seq<Group<R>>)
    : (seq<Group<R>>, Outcome, seq<string>)
  {
    if groups == [] then ([], NOTHING_YET, [])
    else
      var (left, out, asked) := Groups(p, ctx, limiter, sig, groups[..|groups| - 1]);
      var (kept, out', asked') := OneGroup(p, ctx, limiter, sig, groups[|groups| - 1], out, asked);
      (left + Listed(kept), out', asked')
  }

  function Listed<T>(o: Option<T>): seq<T> { if o.Some? then [o.value] else [] }

  function Spans(p: Policy): Signal<Span> { Signal((service, s) => TreatSpan(p, service, s), s => 1) }

  function LogRecords(p: Policy): Signal<LogRecord> { Signal((service, r) => TreatLog(p, service, r), r => 1) }

  function MetricPoints(p: Policy): Signal<Metric> {
    Signal((service, m) => TreatMetric(p, service, m), m => PointsIn(m))
  }

  // ---- Conservation ----

  function SumOf(drops: seq<(DropReason, nat)>): nat {
    if drops == [] then 0 else SumOf(drops[..|drops| - 1]) + drops[|drops| - 1].1
  }

  /** Each record's weight is what was kept of it and what was dropped, and what is left weighs what was kept. */
  ghost predicate Conserves<R(!new)>(sig: Signal<R>) {
    forall service, r ::
      var t := sig.treat(service, r);
      && sig.weight(r) == t.kept + SumOf(t.drops)
      && (if t.left.Some? then sig.weight(t.left.value) == t.kept else t.kept == 0)
  }

  lemma {:induction false} SumJoins(a: seq<(DropReason, nat)>, b: seq<(DropReason, nat)>)
    ensures SumOf(a + b) == SumOf(a) + SumOf(b)
  {
    if b == [] {
      assert a + b == a;
    } else {
      assert (a + b)[..|a + b| - 1] == a + b[..|b| - 1];
      SumJoins(a, b[..|b| - 1]);
    }
  }

  lemma {:induction false} PointsConserve(p: Policy, service: string, points: seq<Point>)
    ensures var t := TreatPoints(p, service, points);
            |points| == t.kept + SumOf(t.drops) && |t.left.value| == t.kept
  {
    if points != [] {
      var before := TreatPoints(p, service, points[..|points| - 1]);
      var last := TreatPoint(p, service, points[|points| - 1]);
      PointsConserve(p, service, points[..|points| - 1]);
      SumJoins(before.drops, last.drops);
      assert SumOf([(AttributeTooLarge, 1)]) == 1;
    }
  }

  lemma SignalsConserve(p: Policy)
    ensures Conserves(Spans(p)) && Conserves(LogRecords(p)) && Conserves(MetricPoints(p))
  {
    assert SumOf([(AttributeTooLarge, 1)]) == 1;
    forall service, m: Metric
      ensures var t := TreatMetric(p, service, m);
              PointsIn(m) == t.kept + SumOf(t.drops)
                  && (if t.left.Some? then PointsIn(t.left.value) == t.kept else t.kept == 0)
    {
      if m.points.Some? {
        PointsConserve(p, service, m.points.value);
      }
      assert SumOf([(MetricName, PointsIn(m))]) == PointsIn(m);
    }
  }

  /** What dropping and treating leave alone. */
  ghost predicate SameResources(a: Outcome, b: Outcome) {
    a.checkedResources == b.checkedResources && a.instanceLimited == b.instanceLimited && a.retryAfter == b.retryAfter
  }

  /** Reasons are named once, and one is named if anything was rejected. */
  ghost predicate ReasonsGiven(out: Outcome) { Distinct(out.reasons) && (out.rejected > 0 ==> out.reasons != []) }

  lemma DropGivesReason(out: Outcome, reason: DropReason, records: nat)
    requires ReasonsGiven(out)
    ensures ReasonsGiven(Drop(out, reason, records))
  {
    if reason !in out.reasons {
      PushedDistinct(out.reasons, reason);
    } else {
      assert out.reasons != [];
    }
  }

  lemma {:induction false} DropAllCounts(out: Outcome, drops: seq<(DropReason, nat)>)
    requires SumOf(drops) <= I64_MAX
    ensures var o := DropAll(out, drops);
            && o.rejected == out.rejected + SumOf(drops) && o.kept == out.kept && SameResources(o, out)
            && (ReasonsGiven(out) ==> ReasonsGiven(o))
  {
    if drops != [] {
      var n := |drops| - 1;
      DropAllCounts(out, drops[..n]);
      if ReasonsGiven(out) {
        DropGivesReason(DropAll(out, drops[..n]), drops[n].0, drops[n].1);
      }
    }
  }

  ghost predicate TreatConserves<R(!new)>(treat: R -> Treated<R>, weight: R -> nat) {
    forall r :: var t := treat(r);
      && weight(r) == t.kept + SumOf(t.drops)
      && (if t.left.Some? then weight(t.left.value) == t.kept else t.kept == 0)
  }

  /** A part of the batch that weighed `before` was counted out of `out` into `o`, and what is left weighs `after`. */
  ghost predicate Accounted(out: Outcome, o: Outcome, before: nat, after: nat) {
    && o.kept == out.kept + after
    && o.kept + o.rejected == out.kept + out.rejected + before
    && SameResources(o, out)
    && (ReasonsGiven(out) ==> ReasonsGiven(o))
  }

  lemma AccountedJoins(a: Outcome, b: Outcome, c: Outcome, before: nat, after: nat, before': nat, after': nat)
    requires Accounted(a, b, before, after) && Accounted(b, c, before', after')
    ensures Accounted(a, c, before + before', after + after')
  {
  }

  lemma NoteAccounts<R>(out: Outcome, t: Treated<R>)
    requires SumOf(t.drops) <= I64_MAX
    ensures Accounted(out, Note(out, t), t.kept + SumOf(t.drops), t.kept)
  {
    DropAllCounts(out.(kept := out.kept + t.kept, stripped := out.stripped + t.stripped), t.drops);
  }

  lemma OneMoreRecord<R>(records: seq<R>, r: R, weight: R -> nat)
    ensures RecordWeight(records + [r], weight) == RecordWeight(records, weight) + weight(r)
  {
    assert (records + [r])[..|records|] == records;
  }

  lemma {:induction false} RecordsAccounted<R(!new)>(records: seq<R>, treat: R -> Treated<R>, weight: R -> nat,
                                              out: Outcome)
    requires TreatConserves(treat, weight) && RecordWeight(records, weight) <= I64_MAX
    ensures var (left, o) := Records(records, treat, out);
            Accounted(out, o, RecordWeight(records, weight), RecordWeight(left, weight))
  {
    if records != [] {
      var n := |records| - 1;
      var (left, o) := Records(records[..n], treat, out);
      RecordsAccounted(records[..n], treat, weight, out);
      var t := treat(records[n]);
      NoteAccounts(o, t);
      AccountedJoins(out, o, Note(o, t), RecordWeight(records[..n], weight), RecordWeight(left, weight),
          weight(records[n]), t.kept);
      if t.left.Some? {
        OneMoreRecord(left, t.left.value, weight);
      } else {
        assert left + [] == left;
      }
    }
  }

  lemma OneMoreScope<R>(scopes: seq<Scope<R>>, s: Scope<R>, weight: R -> nat)
    ensures ScopeWeight(scopes + [s], weight) == ScopeWeight(scopes, weight) + RecordWeight(s.records, weight)
  {
    assert (scopes + [s])[..|scopes|] == scopes;
  }

  lemma OneScopeAccounted<R(!new)>(s: Scope<R>, treat: R -> Treated<R>, weight: R -> nat, out: Outcome)
    requires TreatConserves(treat, weight) && RecordWeight(s.records, weight) <= I64_MAX
    ensures var (kept, o) := OneScope(s, treat, out);
            Accounted(out, o, RecordWeight(s.records, weight), RecordWeight(kept.records, weight))
  {
    var o := out.(stripped := out.stripped + if s.scope.Some? then |s.scope.value| else 0);
    RecordsAccounted(s.records, treat, weight, o);
  }

  lemma {:induction false} ScopesAccounted<R(!new)>(scopes: seq<Scope<R>>, treat: R -> Treated<R>, weight: R -> nat,
                                             out: Outcome)
    requires TreatConserves(treat, weight) && ScopeWeight(scopes, weight) <= I64_MAX
    ensures var (left, o) := Scopes(scopes, treat, out);
            Accounted(out, o, ScopeWeight(scopes, weight), ScopeWeight(left, weight))
  {
    if scopes != [] {
      var before, last := scopes[..|scopes| - 1], scopes[|scopes| - 1];
      var (left, o) := Scopes(before, treat, out);
      ScopesAccounted(before, treat, weight, out);
      OneScopeAccounted(last, treat, weight, o);
      var (kept, o') := OneScope(last, treat, o);
      AccountedJoins(out, o, o', ScopeWeight(before, weight), ScopeWeight(left, weight),
                     RecordWeight(last.records, weight), RecordWeight(kept.records, weight));
      OneMoreScope(left, kept, weight);
    }
  }

  // ---- The laws of a whole batch ----

  /** How many of the ids asked were answered with a wait. */
  function LimitedAmong(limiter: Answers, asked: seq<string>): nat {
    if asked == [] then 0 else LimitedAmong(limiter, asked[..|asked| - 1]) + if limiter(asked).Some? then 1 else 0
  }

  ghost predicate IsLongestWait(limiter: Answers, asked: seq<string>, wait: Option<real>) {
    && (forall k :: 0 < k <= |asked| && limiter(asked[..k]).Some? ==>
          wait.Some? && limiter(asked[..k]).value <= wait.value)
    && (wait.Some? ==> exists k :: 0 < k <= |asked| && limiter(asked[..k]) == wait)
  }

  ghost predicate Lawful<R>(limiter: Answers, sig: Signal<R>, before: seq<Group<R>>, left: seq<Group<R>>,
                            out: Outcome, asked: seq<string>) {
    && out.kept + out.rejected == GroupWeight(before, sig.weight)
    && out.kept == GroupWeight(left, sig.weight)
    && |left| + out.instanceLimited == out.checkedResources
    && out.instanceLimited == LimitedAmong(limiter, asked)
    && IsLongestWait(limiter, asked, out.retryAfter)
    && ReasonsGiven(out)
  }

  lemma AskedOneMore(limiter: Answers, asked: seq<string>, id: string, wait: Option<real>)
    requires IsLongestWait(limiter, asked, wait)
    ensures var now := limiter(asked + [id]);
            IsLongestWait(limiter, asked + [id], if now.Some? then Longer(wait, now.value) else wait)
  {
    var more := asked + [id];
    assert more[..|more|] == more;
    forall k | 0 < k <= |asked| ensures more[..k] == asked[..k] {
    }
    var now := limiter(more);
    var longest := if now.Some? then Longer(wait, now.value) else wait;
    if longest.Some? && longest == wait {
      var k :| 0 < k <= |asked| && limiter(asked[..k]) == wait;
      assert limiter(more[..k]) == longest;
    } else if longest.Some? {
      assert limiter(more[..|more|]) == longest;
    }
  }

  lemma ChargeAccounts(limiter: Answers, instance: Option<string>, asked: seq<string>, longest: Option<real>)
    requires IsLongestWait(limiter, asked, longest)
    ensures var (wait, asked') := Charge(limiter, instance, asked);
            && LimitedAmong(limiter, asked') == LimitedAmong(limiter, asked) + (if wait.Some? then 1 else 0)
            && IsLongestWait(limiter, asked', if wait.Some? then Longer(longest, wait.value) else longest)
  {
    if instance.Some? {
      AskedOneMore(limiter, asked, instance.value, longest);
      assert (asked + [instance.value])[..|asked|] == asked;
    }
  }

  ghost predicate CheckCounted(limiter: Answers, records: nat, passed: bool, out: Outcome, o: Outcome,
                               asked: seq<string>) {
    && o.kept == out.kept && o.rejected == out.rejected + (if passed then 0 else records)
    && o.checkedResources - o.instanceLimited == out.checkedResources - out.instanceLimited + (if passed then 1 else 0)
    && o.instanceLimited == LimitedAmong(limiter, asked) && IsLongestWait(limiter, asked, o.retryAfter)
    && ReasonsGiven(o)
  }

  /** One resource's checks: dropped with all it held, limited or not, or passed with nothing counted yet. */
  lemma CheckedAccounts(p: Policy, ctx: Context, limiter: Answers, resource: Option<Attributes>, records: nat,
                        out: Outcome, asked: seq<string>)
    requires records <= I64_MAX && ReasonsGiven(out)
    requires out.instanceLimited == LimitedAmong(limiter, asked) && IsLongestWait(limiter, asked, out.retryAfter)
    ensures var (passed, o, asked') := Checked(p, ctx, limiter, resource, records, out, asked);
            CheckCounted(limiter, records, passed.Some?, out, o, asked')
  {
    var attributes := if resource.Some? then resource.value else [];
    match Content(p, attributes)
    case Err(reason) => DropGivesReason(out, reason, records);
    case Ok((service, instance)) =>
      ChargeAccounts(limiter, instance, asked, out.retryAfter);
      var (wait, _) := Charge(limiter, instance, asked);
      if wait.Some? {
        DropGivesReason(Limited(out.(checkedResources := out.checkedResources + 1), wait.value), RateLimitedInstance,
            records);
      }
  }

  lemma OneMoreGroupWeight<R>(groups: seq<Group<R>>, g: Group<R>, weight: R -> nat)
    ensures GroupWeight(groups + [g], weight) == GroupWeight(groups, weight) + ScopeWeight(g.scopes, weight)
  {
    assert (groups + [g])[..|groups|] == groups;
  }

  /**
   * What one group does to the counts: all it weighed is kept or rejected, and what is left of it weighs
   * what was kept.
   */
  ghost predicate GroupCounted<R>(limiter: Answers, sig: Signal<R>, g: Group<R>, kept: Option<Group<R>>,
                                  out: Outcome, o: Outcome, asked: seq<string>)
  {
    && o.kept == out.kept + (if kept.Some? then ScopeWeight(kept.value.scopes, sig.weight) else 0)
    && o.kept + o.rejected == out.kept + out.rejected + ScopeWeight(g.scopes, sig.weight)
    && o.checkedResources - o.instanceLimited == out.checkedResources - out.instanceLimited + |Listed(kept)|
    && o.instanceLimited == LimitedAmong(limiter, asked) && IsLongestWait(limiter, asked, o.retryAfter)
    && ReasonsGiven(o)
  }

  lemma OneGroupAccounts<R(!new)>(p: Policy, ctx: Context, limiter: Answers, sig: Signal<R>, g: Group<R>,
                           out: Outcome, asked: seq<string>)
    requires Conserves(sig) && ScopeWeight(g.scopes, sig.weight) <= I64_MAX && ReasonsGiven(out)
    requires out.instanceLimited == LimitedAmong(limiter, asked) && IsLongestWait(limiter, asked, out.retryAfter)
    ensures var (kept, o, asked') := OneGroup(p, ctx, limiter, sig, g, out, asked);
            GroupCounted(limiter, sig, g, kept, out, o, asked')
  {
    var weight := ScopeWeight(g.scopes, sig.weight);
    CheckedAccounts(p, ctx, limiter, g.resource, weight, out, asked);
    var (passed, o, asked') := Checked(p, ctx, limiter, g.resource, weight, out, asked);
    KeptCounted(limiter, sig, g, passed, out, o, asked');
  }

  lemma KeptCounted<R(!new)>(limiter: Answers, sig: Signal<R>, g: Group<R>, passed: Option<(string, Attributes)>,
                             out: Outcome, o: Outcome, asked: seq<string>)
    requires Conserves(sig) && ScopeWeight(g.scopes, sig.weight) <= I64_MAX
    requires CheckCounted(limiter, ScopeWeight(g.scopes, sig.weight), passed.Some?, out, o, asked)
    ensures var (kept, o') := Kept(sig, g, passed, o); GroupCounted(limiter, sig, g, kept, out, o', asked)
  {
    KeptAccounts(sig, g, passed, o);
  }

  lemma KeptAccounts<R(!new)>(sig: Signal<R>, g: Group<R>, passed: Option<(string, Attributes)>, out: Outcome)
    requires Conserves(sig) && ScopeWeight(g.scopes, sig.weight) <= I64_MAX
    ensures var (kept, o) := Kept(sig, g, passed, out);
            if passed == None then kept == None && o == out
            else kept.Some? && Accounted(out, o, ScopeWeight(g.scopes, sig.weight),
              ScopeWeight(kept.value.scopes, sig.weight))
  {
    if passed.Some? {
      ServiceConserves(sig, passed.value.0);
      ScopesAccounted(g.scopes, ForService(sig, passed.value.0), sig.weight, out);
    }
  }

  lemma ServiceConserves<R(!new)>(sig: Signal<R>, service: string)
    requires Conserves(sig)
    ensures TreatConserves(ForService(sig, service), sig.weight)
  {
  }

  lemma OneMoreGroup<R>(limiter: Answers, sig: Signal<R>, before: seq<Group<R>>, left: seq<Group<R>>, out: Outcome,
                        asked: seq<string>, g: Group<R>, kept: Option<Group<R>>, o: Outcome, asked': seq<string>)
    requires Lawful(limiter, sig, before, left, out, asked) && GroupCounted(limiter, sig, g, kept, out, o, asked')
    ensures Lawful(limiter, sig, before + [g], left + Listed(kept), o, asked')
  {
    OneMoreGroupWeight(before, g, sig.weight);
    if kept.Some? {
      OneMoreGroupWeight(left, kept.value, sig.weight);
    } else {
      assert left + [] == left;
    }
  }

  /** Nothing is lost or counted twice, whoever is limited and whatever the lists say. */
  lemma {:induction false} BatchIsConserved<R(!new)>(p: Policy, ctx: Context, limiter: Answers, sig: Signal<R>,
                                              groups: seq<Group<R>>)
    requires Conserves(sig) && GroupWeight(groups, sig.weight) <= I64_MAX
    ensures var (left, out, asked) := Groups(p, ctx, limiter, sig, groups);
            Lawful(limiter, sig, groups, left, out, asked)
  {
    if groups != [] {
      var before, g := groups[..|groups| - 1], groups[|groups| - 1];
      BatchIsConserved(p, ctx, limiter, sig, before);
      var (left, out, asked) := Groups(p, ctx, limiter, sig, before);
      OneGroupAccounts(p, ctx, limiter, sig, g, out, asked);
      var (kept, o, asked') := OneGroup(p, ctx, limiter, sig, g, out, asked);
      OneMoreGroup(limiter, sig, before, left, out, asked, g, kept, o, asked');
      assert groups == before + [g];
    }
  }

  // ---- Nothing unlisted leaves ----

  ghost predicate AllListed(p: Policy, service: string, place: Place, attributes: Attributes) {
    forall a :: a in attributes ==> p.attributeAllowed(service, place, a.key)
  }

  ghost predicate CleanSpan(p: Policy, service: string, s: Span) {
    && |s.name| <= p.capDefault
    && AllListed(p, service, AtSpan, s.attributes) && !TooLarge(p, s.attributes)
    && (forall e :: e in s.events ==> AllListed(p, service, AtSpanEvent, e) && !TooLarge(p, e))
    && (forall l :: l in s.links ==> l == [])
  }

  ghost predicate CleanLog(p: Policy, service: string, r: LogRecord) {
    && |r.eventName| <= p.capDefault && (r.body.Some? ==> ValueLen(r.body.value) <= p.capLogBody)
    && AllListed(p, service, AtLogRecord, r.attributes) && !TooLarge(p, r.attributes)
  }

  ghost predicate CleanPoint(p: Policy, service: string, q: Point) {
    && AllListed(p, service, AtDataPoint, q.attributes) && !TooLarge(p, q.attributes)
    && (forall e :: e in q.exemplars ==> e == [])
  }

  ghost predicate CleanMetric(p: Policy, service: string, m: Metric) {
    && p.metricAllowed(m.name) && m.metadata == []
    && (m.points.Some? ==> forall q :: q in m.points.value ==> CleanPoint(p, service, q))
  }

  /** What is left of any record satisfies `clean`. */
  ghost predicate LeavesClean<R(!new)>(sig: Signal<R>, clean: (string, R) -> bool) {
    forall service, r :: sig.treat(service, r).left.Some? ==> clean(service, sig.treat(service, r).left.value)
  }

  lemma {:induction false} PointsLeftClean(p: Policy, service: string, points: seq<Point>)
    ensures forall q :: q in TreatPoints(p, service, points).left.value ==> CleanPoint(p, service, q)
  {
    if points != [] {
      PointsLeftClean(p, service, points[..|points| - 1]);
      StripIs(p, points[|points| - 1].attributes, service, AtDataPoint);
    }
  }

  lemma SpansLeftClean(p: Policy)
    ensures forall service, s: Span :: TreatSpan(p, service, s).left.Some? ==>
            CleanSpan(p, service, TreatSpan(p, service, s).left.value)
  {
    forall service, s: Span | TreatSpan(p, service, s).left.Some?
      ensures CleanSpan(p, service, TreatSpan(p, service, s).left.value)
    {
      var left := TreatSpan(p, service, s).left.value;
      StripIs(p, s.attributes, service, AtSpan);
      forall e | e in left.events ensures AllListed(p, service, AtSpanEvent, e) && !TooLarge(p, e) {
        var i :| 0 <= i < |left.events| && left.events[i] == e;
        assert s.events[i] in s.events && !TooLarge(p, s.events[i]);
        StripIs(p, s.events[i], service, AtSpanEvent);
      }
    }
  }

  lemma LogsLeftClean(p: Policy)
    ensures forall service, r: LogRecord :: TreatLog(p, service, r).left.Some? ==>
            CleanLog(p, service, TreatLog(p, service, r).left.value)
  {
    forall service, r: LogRecord | TreatLog(p, service, r).left.Some?
      ensures CleanLog(p, service, TreatLog(p, service, r).left.value)
    {
      StripIs(p, r.attributes, service, AtLogRecord);
    }
  }

  lemma MetricsLeftClean(p: Policy)
    ensures forall service, m: Metric ::
              TreatMetric(p, service, m).left.Some? ==> CleanMetric(p, service, TreatMetric(p, service, m).left.value)
  {
    forall service, m: Metric | TreatMetric(p, service, m).left.Some?
      ensures CleanMetric(p, service, TreatMetric(p, service, m).left.value)
    {
      if m.points.Some? {
        PointsLeftClean(p, service, m.points.value);
      }
    }
  }

  ghost predicate CleanScope<R(!new)>(clean: (string, R) -> bool, service: string, s: Scope<R>) {
    (s.scope.Some? ==> s.scope.value == []) && forall r :: r in s.records ==> clean(service, r)
  }

  /**
   * Attributes of the sender that are listed, of allowed size, and no gateway label but instance ids, then
   * the labels the gateway writes.
   */
  ghost predicate LabelledByGateway(p: Policy, ctx: Context, service: string, attributes: Attributes) {
    exists mine: Attributes, version: string ::
      && attributes == mine + Labels(ctx, version)
      && AllListed(p, service, AtResource, mine) && !TooLarge(p, mine)
      && (forall a :: a in mine && a.key in p.gatewayLabels ==> a.key == INSTANCE_ID)
  }

  /** The policy lets every service's name through, as a sender's attribute and not a label of the gateway's. */
  ghost predicate NamesServices(p: Policy) {
    && "" !in p.serviceNames && SERVICE_NAME !in p.gatewayLabels
    && forall service :: service in p.serviceNames ==> p.attributeAllowed(service, AtResource, SERVICE_NAME)
  }

  /** The records are clean for one known service, the one the resource names wherever names come through. */
  ghost predicate CleanGroup<R(!new)>(p: Policy, ctx: Context, clean: (string, R) -> bool, g: Group<R>) {
    exists service ::
      && service in p.serviceNames
      && (NamesServices(p) ==> g.resource.Some? && ServiceOf(g.resource.value) == service)
      && g.resource.Some? && LabelledByGateway(p, ctx, service, g.resource.value)
      && forall s :: s in g.scopes ==> CleanScope(clean, service, s)
  }

  lemma {:induction false} RecordsLeftClean<R(!new)>(records: seq<R>, sig: Signal<R>, clean: (string, R) -> bool,
                                              service: string, out: Outcome)
    requires LeavesClean(sig, clean)
    ensures forall r :: r in Records(records, ForService(sig, service), out).0 ==> clean(service, r)
  {
    if records != [] {
      RecordsLeftClean(records[..|records| - 1], sig, clean, service, out);
    }
  }

  lemma OneScopeLeftClean<R(!new)>(s: Scope<R>, sig: Signal<R>, clean: (string, R) -> bool, service: string,
                            out: Outcome)
    requires LeavesClean(sig, clean)
    ensures CleanScope(clean, service, OneScope(s, ForService(sig, service), out).0)
  {
    RecordsLeftClean(s.records, sig, clean, service,
        out.(stripped := out.stripped + if s.scope.Some? then |s.scope.value| else 0));
  }

  lemma {:induction false} ScopesLeftClean<R(!new)>(scopes: seq<Scope<R>>, sig: Signal<R>, clean: (string, R) -> bool,
                                             service: string, out: Outcome)
    requires LeavesClean(sig, clean)
    ensures forall s :: s in Scopes(scopes, ForService(sig, service), out).0 ==> CleanScope(clean, service, s)
  {
    if scopes != [] {
      var before := scopes[..|scopes| - 1];
      ScopesLeftClean(before, sig, clean, service, out);
      OneScopeLeftClean(scopes[|scopes| - 1], sig, clean, service, Scopes(before, ForService(sig, service), out).1);
    }
  }

  lemma PassedIsLabelled(p: Policy, ctx: Context, limiter: Answers, resource: Option<Attributes>, records: nat,
                         out: Outcome, asked: seq<string>)
    ensures var (passed, _, _) := Checked(p, ctx, limiter, resource, records, out, asked);
            passed.Some? ==>
              && passed.value.0 in p.serviceNames
              && LabelledByGateway(p, ctx, passed.value.0, passed.value.1)
              && (NamesServices(p) ==> ServiceOf(passed.value.1) == passed.value.0)
  {
    var attributes := if resource.Some? then resource.value else [];
    var (passed, _, _) := Checked(p, ctx, limiter, resource, records, out, asked);
    if passed.Some? {
      var service := passed.value.0;
      var mine := Strip(p, Unlabelled(p, attributes), service, AtResource);
      StripIs(p, Unlabelled(p, attributes), service, AtResource);
      UnlabelledIs(p, attributes);
      assert AllListed(p, service, AtResource, mine) && !TooLarge(p, mine);
      assert passed.value.1 == mine + Labels(ctx, VersionOf(p, attributes));
      if NamesServices(p) {
        UnlabelledFinds(p, attributes, SERVICE_NAME);
        StripFinds(p, Unlabelled(p, attributes), service, AtResource, SERVICE_NAME);
        FindJoins(mine, Labels(ctx, VersionOf(p, attributes)), SERVICE_NAME);
      }
    }
  }

  lemma {:induction false} FindJoins(a: Attributes, b: Attributes, key: string)
    ensures Find(a + b, key) == if Find(a, key).Some? then Find(a, key) else Find(b, key)
  {
    if a == [] {
      assert a + b == b;
    } else {
      assert (a + b)[1..] == a[1..] + b;
      FindJoins(a[1..], b, key);
    }
  }

  lemma {:induction false} StripFinds(p: Policy, attributes: Attributes, service: string, place: Place, key: string)
    requires p.attributeAllowed(service, place, key)
    ensures Find(Strip(p, attributes, service, place), key) == Find(attributes, key)
  {
    if attributes != [] {
      var before, last := attributes[..|attributes| - 1], attributes[|attributes| - 1];
      StripFinds(p, before, service, place, key);
      assert attributes == before + [last];
      FindJoins(before, [last], key);
      FindJoins(Strip(p, before, service, place),
                if p.attributeAllowed(service, place, last.key) then [last] else [], key);
    }
  }

  lemma {:induction false} UnlabelledFinds(p: Policy, attributes: Attributes, key: string)
    requires key !in p.gatewayLabels
    ensures Find(Unlabelled(p, attributes), key) == Find(attributes, key)
  {
    if attributes != [] {
      UnlabelledFinds(p, attributes[1..], key);
      var first := attributes[0];
      FindJoins(if first.key == INSTANCE_ID || first.key !in p.gatewayLabels then [first] else [],
                Unlabelled(p, attributes[1..]), key);
      assert attributes == [first] + attributes[1..];
    }
  }

  // ---- Instance ids ----

  predicate IsId(p: Policy, a: Attribute) { AsText(Some(a)).Some? && p.isInstanceId(AsText(Some(a)).value) }

  ghost predicate IdsAreChecked(p: Policy, attributes: Attributes) {
    forall a :: a in attributes && a.key == INSTANCE_ID ==> IsId(p, a)
  }

  /**
   * Only the first instance id is checked, and all of them stay. So of a resource that passes, every id
   * that leaves is a valid one exactly when every id that came in was, or ids are not listed at all.
   */
  lemma IdsLeaveCheckedExactly(p: Policy, ctx: Context, attributes: Attributes)
    requires Content(p, attributes).Ok?
    ensures var service := Content(p, attributes).value.0;
            IdsAreChecked(p, Labelled(p, ctx, service, attributes)) <==>
            IdsAreChecked(p, attributes) || !p.attributeAllowed(service, AtResource, INSTANCE_ID)
  {
    var service := Content(p, attributes).value.0;
    var mine, labels := Strip(p, Unlabelled(p, attributes), service, AtResource), Labels(ctx, VersionOf(p, attributes));
    StripIs(p, Unlabelled(p, attributes), service, AtResource);
    UnlabelledIs(p, attributes);
    LabelsAreNoIds(ctx, VersionOf(p, attributes));
    assert forall a :: a in mine + labels <==> a in mine || a in labels;
  }

  lemma LabelsAreNoIds(ctx: Context, version: string)
    ensures forall a :: a in Labels(ctx, version) ==> a.key != INSTANCE_ID
  {
    assert INSTANCE_ID[13] == 'i' && INSTANCE_ID[14] == 'n' && INSTANCE_ID[15] == 's';
  }

  function TwoIds(service: string, first: string, second: string): Attributes {
    [TextAttribute(SERVICE_NAME, service), TextAttribute(INSTANCE_ID, first), TextAttribute(INSTANCE_ID, second)]
  }

  /** A resource whose second id is not one passes, and that id leaves. */
  lemma SecondIdLeavesUnchecked(p: Policy, ctx: Context, service: string, good: string, bad: string)
    requires service in p.serviceNames && p.isInstanceId(good) && !p.isInstanceId(bad)
    requires p.attributeAllowed(service, AtResource, INSTANCE_ID)
    requires !TooLarge(p, TwoIds(service, good, bad))
    ensures var came := TwoIds(service, good, bad);
            && Content(p, came) == Ok((service, Some(good)))
            && TextAttribute(INSTANCE_ID, bad) in Labelled(p, ctx, service, came)
  {
    var came := TwoIds(service, good, bad);
    assert SERVICE_NAME != INSTANCE_ID;
    assert came[1..][0] == TextAttribute(INSTANCE_ID, good);
    assert Find(came, INSTANCE_ID) == Find(came[1..], INSTANCE_ID);
    assert TextAttribute(INSTANCE_ID, bad) == came[2];
    UnlabelledIs(p, came);
    StripIs(p, Unlabelled(p, came), service, AtResource);
  }

  /**
   * Whatever came in, what goes out carries only listed attributes of allowed size, and gateway labels,
   * instance ids apart, that only the gateway wrote.
   */
  lemma {:induction false} OnlyListedLeaves<R(!new)>(p: Policy, ctx: Context, limiter: Answers, sig: Signal<R>,
                                              clean: (string, R) -> bool,
                                                     groups: seq<Group<R>>)
    requires LeavesClean(sig, clean)
    ensures forall g :: g in Groups(p, ctx, limiter, sig, groups).0 ==> CleanGroup(p, ctx, clean, g)
  {
    if groups != [] {
      var before := groups[..|groups| - 1];
      OnlyListedLeaves(p, ctx, limiter, sig, clean, before);
      var (left, out, asked) := Groups(p, ctx, limiter, sig, before);
      OneGroupLeftClean(p, ctx, limiter, sig, clean, groups[|groups| - 1], out, asked);
    }
  }

  lemma OneGroupLeftClean<R(!new)>(p: Policy, ctx: Context, limiter: Answers, sig: Signal<R>,
                            clean: (string, R) -> bool,
                                   g: Group<R>, out: Outcome, asked: seq<string>)
    requires LeavesClean(sig, clean)
    ensures var (kept, _, _) := OneGroup(p, ctx, limiter, sig, g, out, asked);
            kept.Some? ==> CleanGroup(p, ctx, clean, kept.value)
  {
    var weight := ScopeWeight(g.scopes, sig.weight);
    PassedIsLabelled(p, ctx, limiter, g.resource, weight, out, asked);
    var (passed, o, _) := Checked(p, ctx, limiter, g.resource, weight, out, asked);
    if passed.Some? {
      ScopesLeftClean(g.scopes, sig, clean, passed.value.0, o);
    }
  }

  // ---- Applying the policy in place ----

  /** The instance buckets as one request meets them. */
  class Limiter {
    const answers: Answers
    var asked: seq<string>

    constructor (answers: Answers)
      ensures this.answers == answers && asked == []
    {
      this.answers, asked := answers, [];
    }

    method TakeInstance(id: string) returns (wait: Option<real>)
      modifies this
      ensures asked == old(asked) + [id] && wait == answers(asked)
    {
      asked := asked + [id];
      wait := answers(asked);
    }
  }

  method RetainRecords<R>(records: seq<R>, treat: R -> Treated<R>, start: Outcome) returns (left: seq<R>, out: Outcome)
    ensures (left, out) == Records(records, treat, start)
  {
    left, out := [], start;
    for i := 0 to |records|
      invariant (left, out) == Records(records[..i], treat, start)
    {
      assert records[..i + 1][..i] == records[..i];
      var t := treat(records[i]);
      out := Note(out, t);
      left := left + Listed(t.left);
    }
    assert records[..|records|] == records;
  }

  method RetainScope<R>(s: Scope<R>, treat: R -> Treated<R>, start: Outcome) returns (kept: Scope<R>, out: Outcome)
    ensures (kept, out) == OneScope(s, treat, start)
  {
    out := start;
    var scope: Option<Attributes> := None;
    if s.scope.Some? {
      out := out.(stripped := out.stripped + |s.scope.value|);
      scope := Some([]);
    }
    var records;
    records, out := RetainRecords(s.records, treat, out);
    kept := Scope(scope, records);
  }

  method RetainScopes<R>(scopes: seq<Scope<R>>, treat: R -> Treated<R>, start: Outcome)
    returns (left: seq<Scope<R>>, out: Outcome)
    ensures (left, out) == Scopes(scopes, treat, start)
  {
    left, out := [], start;
    for i := 0 to |scopes|
      invariant (left, out) == Scopes(scopes[..i], treat, start)
    {
      assert scopes[..i + 1][..i] == scopes[..i];
      var kept;
      kept, out := RetainScope(scopes[i], treat, out);
      left := left + [kept];
    }
    assert scopes[..|scopes|] == scopes;
  }

  /** Check and label one resource; none comes back when it is dropped with everything it held. */
  method CheckResource(p: Policy, ctx: Context, limiter: Limiter, resource: Option<Attributes>, records: nat,
                       start: Outcome)
    returns (passed: Option<(string, Attributes)>, out: Outcome)
    modifies limiter
    ensures (passed, out, limiter.asked) ==
            Checked(p, ctx, limiter.answers, resource, records, start, old(limiter.asked))
  {
    var attributes := if resource.Some? then resource.value else [];
    var content := Content(p, attributes);
    if content.Err? {
      return None, Drop(start, content.error, records);
    }
    var (service, instance) := content.value;
    out := start.(checkedResources := start.checkedResources + 1);
    if instance.Some? {
      var wait := limiter.TakeInstance(instance.value);
      if wait.Some? {
        out := out.(instanceLimited := out.instanceLimited + 1, retryAfter := Longer(out.retryAfter, wait.value));
        return None, Drop(out, RateLimitedInstance, records);
      }
    }
    var labelled, removed := Relabel(p, ctx, service, attributes);
    out := out.(stripped := out.stripped + removed);
    passed := Some((service, labelled));
  }

  /** Overwrite the sender's gateway labels, strip what is not listed, and label. */
  method Relabel(p: Policy, ctx: Context, service: string, attributes: Attributes)
    returns (labelled: Attributes, removed: nat)
    ensures labelled == Labelled(p, ctx, service, attributes) && removed == StrippedFrom(p, service, attributes)
  {
    var version := VersionOf(p, attributes);
    labelled, removed := StripInPlace(p, Unlabelled(p, attributes), service, AtResource);
    labelled := labelled + Labels(ctx, version);
  }

  method RetainGroup<R>(p: Policy, ctx: Context, limiter: Limiter, sig: Signal<R>, g: Group<R>, start: Outcome)
    returns (kept: Option<Group<R>>, out: Outcome)
    modifies limiter
    ensures (kept, out, limiter.asked) == OneGroup(p, ctx, limiter.answers, sig, g, start, old(limiter.asked))
  {
    var passed;
    passed, out := CheckResource(p, ctx, limiter, g.resource, ScopeWeight(g.scopes, sig.weight), start);
    if passed == None {
      return None, out;
    }
    var scopes;
    scopes, out := RetainScopes(g.scopes, ForService(sig, passed.value.0), out);
    kept := Some(Group(Some(passed.value.1), scopes));
  }

  method RetainGroups<R>(p: Policy, ctx: Context, limiter: Limiter, sig: Signal<R>, groups: seq<Group<R>>)
    returns (left: seq<Group<R>>, out: Outcome)
    requires limiter.asked == []
    modifies limiter
    ensures (left, out, limiter.asked) == Groups(p, ctx, limiter.answers, sig, groups)
  {
    left, out := [], NOTHING_YET;
    for i := 0 to |groups|
      invariant (left, out, limiter.asked) == Groups(p, ctx, limiter.answers, sig, groups[..i])
    {
      assert groups[..i + 1][..i] == groups[..i];
      var kept;
      kept, out := RetainGroup(p, ctx, limiter, sig, groups[i], out);
      left := left + Listed(kept);
    }
    assert groups[..|groups|] == groups;
  }

  function WeightOf(p: Policy, b: Batch): nat {
    match b
    case Traces(groups) => GroupWeight(groups, Spans(p).weight)
    case Logs(groups) => GroupWeight(groups, LogRecords(p).weight)
    case Metrics(groups) => GroupWeight(groups, MetricPoints(p).weight)
  }

  function Resources(b: Batch): nat {
    match b
    case Traces(groups) => |groups|
    case Logs(groups) => |groups|
    case Metrics(groups) => |groups|
  }

  /** Every resource and record of the batch is clean for its signal. */
  ghost predicate Clean(p: Policy, ctx: Context, b: Batch) {
    match b
    case Traces(groups) => forall g :: g in groups ==> CleanGroup(p, ctx, (service, s) => CleanSpan(p, service, s), g)
    case Logs(groups) => forall g :: g in groups ==> CleanGroup(p, ctx, (service, r) => CleanLog(p, service, r), g)
    case Metrics(groups) => forall g :: g in groups ==>
      CleanGroup(p, ctx, (service, m) => CleanMetric(p, service, m), g)
  }

  class Request {
    var batch: Batch

    constructor (batch: Batch)
      ensures this.batch == batch
    {
      this.batch := batch;
    }

    /** The whole policy, in place. */
    method Apply(p: Policy, ctx: Context, limiter: Limiter) returns (out: Outcome)
      requires limiter.asked == [] && WeightOf(p, batch) <= I64_MAX
      modifies this, limiter
      ensures out.kept + out.rejected == WeightOf(p, old(batch)) && out.kept == WeightOf(p, batch)
      ensures Resources(batch) + out.instanceLimited == out.checkedResources
      ensures AllInstanceLimited(out) ==> Resources(batch) == 0 && out.kept == 0
      ensures out.instanceLimited == LimitedAmong(limiter.answers, limiter.asked)
      ensures IsLongestWait(limiter.answers, limiter.asked, out.retryAfter)
      ensures ReasonsGiven(out)
      ensures Clean(p, ctx, batch)
    {
      SignalsConserve(p);
      match batch {
        case Traces(groups) =>
          var left;
          SpansLeftClean(p);
          left, out := ApplyTo(p, ctx, limiter, Spans(p), (service, s) => CleanSpan(p, service, s), groups);
          batch := Traces(left);
        case Logs(groups) =>
          var left;
          LogsLeftClean(p);
          left, out := ApplyTo(p, ctx, limiter, LogRecords(p), (service, r) => CleanLog(p, service, r), groups);
          batch := Logs(left);
        case Metrics(groups) =>
          var left;
          MetricsLeftClean(p);
          left, out := ApplyTo(p, ctx, limiter, MetricPoints(p), (service, m) => CleanMetric(p, service, m), groups);
          batch := Metrics(left);
      }
    }
  }

  method ApplyTo<R(!new)>(p: Policy, ctx: Context, limiter: Limiter, sig: Signal<R>, ghost clean: (string, R) -> bool,
                   groups: seq<Group<R>>)
    returns (left: seq<Group<R>>, out: Outcome)
    requires limiter.asked == [] && Conserves(sig) && LeavesClean(sig, clean)
             && GroupWeight(groups, sig.weight) <= I64_MAX
    modifies limiter
    ensures Lawful(limiter.answers, sig, groups, left, out, limiter.asked)
    ensures forall g :: g in left ==> CleanGroup(p, ctx, clean, g)
    ensures (left, out, limiter.asked) == Groups(p, ctx, limiter.answers, sig, groups)
  {
    left, out := RetainGroups(p, ctx, limiter, sig, groups);
    BatchIsConserved(p, ctx, limiter.answers, sig, groups);
    OnlyListedLeaves(p, ctx, limiter.answers, sig, clean, groups);
  }
}
