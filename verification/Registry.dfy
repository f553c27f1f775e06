/** The configuration registry of l7mp.js: six named sequences, filled by nested adds with
    generated names and emptied by cascading deletes. Every function is one API call run to
    completion; `Thrown` carries the state the call leaves behind. */
module Registry {
  import opened Basics
  import C = Clusters

  datatype Entry<+B> = Entry(name: string, auto: bool, body: B)

  /** `action.route` of a rule: absent, the name of a route, or an object that has not been
      replaced by a name. */
  datatype RouteRef = NoRoute | To(name: string) | Pending

  datatype RouteBody = RouteBody(destination: string, ingress: seq<string>, egress: seq<string>)

  datatype ClusterBody = ClusterBody(virtual: bool, cluster: C.Cluster)

  datatype EndpointBody = EndpointBody(cluster: string, address: string)

  /** The static counters that generated names are built from. */
  datatype Ids = Ids(rulelist: nat, rule: nat, route: nat, cluster: nat, endpoint: nat)

  datatype State = State(
    listeners: seq<Entry<string>>,
    rulelists: seq<Entry<seq<string>>>,
    rules: seq<Entry<RouteRef>>,
    routes: seq<Entry<RouteBody>>,
    clusters: seq<Entry<ClusterBody>>,
    endpoints: seq<Entry<EndpointBody>>,
    ids: Ids)

  const EMPTY := State([], [], [], [], [], [], Ids(0, 0, 0, 0, 0))

  datatype Error = Invalid | Duplicate | Unknown | NoFreshName | Unsupported | StartFailed | Broken

  datatype Out = Done(reg: State) | Thrown(reg: State, error: Error)

  // ------------------------------------------------------------------ what callers pass in

  /** A reference by name, an inline object, or a value that is neither. */
  datatype Use<+T> = Named(name: string) | Inline(spec: T) | Other

  datatype EndpointSpec = EndpointSpec(name: Option<string>, hasSpec: bool, address: string)

  /** `known`: the protocol and the policy are implemented; `starts`: `run` succeeds. */
  datatype ClusterSpec = ClusterSpec(name: Option<string>, hasSpec: bool, known: bool, virtual: bool,
                                     accepts: bool, policy: C.Policy, endpoints: seq<EndpointSpec>, starts: bool)

  datatype RouteSpec = RouteSpec(name: Option<string>, wellFormed: bool, destination: Use<ClusterSpec>,
                                 ingress: seq<Use<ClusterSpec>>, egress: seq<Use<ClusterSpec>>)

  datatype RuleSpec = RuleSpec(name: Option<string>, hasAction: bool, route: Option<Use<RouteSpec>>)

  datatype RulesUse = Reference(name: string) | Listing(rules: seq<Use<RuleSpec>>)

  datatype ListenerSpec = ListenerSpec(name: Option<string>, wellFormed: bool, known: bool, rules: RulesUse,
                                       starts: bool)

  // ----------------------------------------------------------------------- names and lists

  function Find<B>(es: seq<Entry<B>>, n: string): (i: int)
    ensures -1 <= i < |es| && (i >= 0 ==> es[i].name == n)
  {
    if es == [] then -1
    else if es[0].name == n then 0
    else var i := Find(es[1..], n); if i < 0 then -1 else i + 1
  }

  function Has<B>(es: seq<Entry<B>>, n: string): bool { Find(es, n) >= 0 }

  function IsAuto<B>(es: seq<Entry<B>>, n: string): bool { Has(es, n) && es[Find(es, n)].auto }

  function Splice<T>(es: seq<T>, i: nat): seq<T>
    requires i < |es|
  {
    es[..i] + es[i + 1..]
  }

  function IndexOf(ns: seq<string>, n: string): (i: int)
    ensures -1 <= i < |ns| && (i >= 0 ==> ns[i] == n) && (i < 0 <==> n !in ns)
  {
    if ns == [] then -1
    else if ns[0] == n then 0
    else var i := IndexOf(ns[1..], n); if i < 0 then -1 else i + 1
  }

  const WHITESPACE := {' ', '\t', '\n', '\r'}

  predicate ValidName(n: Option<string>) {
    n.Some? && n.value != "" && forall i :: 0 <= i < |n.value| ==> n.value[i] !in WHITESPACE
  }

  const MAX_NAME_ATTEMPTS := 20

  /** `newName` from attempt i on: the bare name, then suffixes _1 to _20. */
  function NewName<B>(es: seq<Entry<B>>, base: string, i: nat): (r: Option<string>)
    ensures r.Some? ==> !Has(es, r.value)
    decreases MAX_NAME_ATTEMPTS + 1 - i
  {
    if i > MAX_NAME_ATTEMPTS then None
    else
      var n := if i > 0 then base + "_" + Decimal(i) else base;
      if Has(es, n) then NewName(es, base, i + 1) else Some(n)
  }

  function IsGiven(n: Option<string>): bool { n.Some? && n.value != "" }

  function PickName<B>(given: Option<string>, es: seq<Entry<B>>, base: string): Option<string> {
    if IsGiven(given) then given else NewName(es, base, 0)
  }

  // ----------------------------------------------------------------------------- endpoints

  function SetCluster(s: State, j: nat, c: C.Cluster): State
    requires j < |s.clusters|
  {
    var e := s.clusters[j];
    s.(clusters := s.clusters[j := e.(body := e.body.(cluster := c))])
  }

  function AddEndPoint(s: State, cluster: string, ep: EndpointSpec): Out {
    var j := Find(s.clusters, cluster);
    if (ep.name.Some? && !ValidName(ep.name)) || !ep.hasSpec then Thrown(s, Invalid)
    else if ep.name.Some? && Has(s.endpoints, ep.name.value) then Thrown(s, Duplicate)
    else if j < 0 then Thrown(s, Unknown)
    else if !s.clusters[j].body.cluster.accepts then Thrown(s, Unsupported)
    else if ep.name.Some? then Done(PutEndPoint(s, j, ep.name.value, ep.address))
    else
      Done(PutEndPoint(s.(ids := s.ids.(endpoint := s.ids.endpoint + 1)), j, OwnName(s, cluster), ep.address))
  }

  /** The name an endpoint gives itself when the caller gives none. */
  function OwnName(s: State, cluster: string): string { cluster + "-EndPoint-" + Decimal(s.ids.endpoint) }

  function PutEndPoint(s: State, j: nat, n: string, address: string): State
    requires j < |s.clusters|
  {
    var c := s.clusters[j];
    SetCluster(s, j, C.AddTo(c.body.cluster, C.Endpoint(n, address)))
    .(endpoints := s.endpoints + [Entry(n, false, EndpointBody(c.name, address))])
  }

  function DeleteEndPoint(s: State, n: string): Out {
    var i := Find(s.endpoints, n);
    if i < 0 then Thrown(s, Unknown)
    else
      var j := Find(s.clusters, s.endpoints[i].body.cluster);
      if j < 0 then Thrown(s, Broken)
      else
        Done(SetCluster(s, j, C.DeleteFrom(s.clusters[j].body.cluster, n))
             .(endpoints := Splice(s.endpoints, i)))
  }

  // ------------------------------------------------------------------------------ clusters

  /** Nothing above the clusters changes. */
  predicate SameAbove(s: State, t: State) {
    t.listeners == s.listeners && t.rulelists == s.rulelists && t.rules == s.rules && t.routes == s.routes
  }

  function DeleteEndPoints(s: State, ns: seq<string>): (o: Out)
    ensures |o.reg.clusters| == |s.clusters| && SameAbove(s, o.reg)
    decreases |ns|
  {
    if ns == [] then Done(s)
    else
      var o := DeleteEndPoint(s, ns[0]);
      if o.Thrown? then o else DeleteEndPoints(o.reg, ns[1..])
  }

  function EndpointNames(c: C.Cluster): seq<string> {
    seq(|c.endpoints|, i requires 0 <= i < |c.endpoints| => c.endpoints[i].name)
  }

  function DeleteCluster(s: State, n: string): (o: Out)
    ensures SameAbove(s, o.reg)
  {
    var i := Find(s.clusters, n);
    if i < 0 then Thrown(s, Unknown)
    else
      var o := DeleteEndPoints(s, EndpointNames(s.clusters[i].body.cluster));
      if o.Thrown? then o else Done(o.reg.(clusters := Splice(o.reg.clusters, i)))
  }

  function CountEndPoint(s: State, name: Option<string>): State {
    if IsGiven(name) then s else s.(ids := s.ids.(endpoint := s.ids.endpoint + 1))
  }

  /** An endpoint of a new cluster: a name that is missing is made up; an endpoint that cannot
      be added is skipped, because nobody awaits the call that adds it. */
  function AddOwnEndPoint(s: State, cluster: string, e: EndpointSpec): (o: Out)
    ensures SameAbove(s, o.reg)
  {
    var n := PickName(e.name, s.endpoints, cluster + "-EndPoint-" + Decimal(s.ids.endpoint));
    var s1 := CountEndPoint(s, e.name);
    if n.None? then Thrown(s1, NoFreshName) else Done(AddEndPoint(s1, cluster, e.(name := n)).reg)
  }

  function AddEndPoints(s: State, cluster: string, eps: seq<EndpointSpec>): (o: Out)
    ensures SameAbove(s, o.reg)
    decreases |eps|
  {
    if eps == [] then Done(s)
    else
      var o := AddOwnEndPoint(s, cluster, eps[0]);
      if o.Thrown? then o else AddEndPoints(o.reg, cluster, eps[1..])
  }

  function PushCluster(s: State, n: string, c: ClusterSpec, auto: bool): State {
    s.(clusters := s.clusters + [Entry(n, auto, ClusterBody(c.virtual, C.NewCluster(c.policy, c.accepts)))])
  }

  function AddCluster(s: State, c: ClusterSpec, auto: bool): (o: Out)
    ensures SameAbove(s, o.reg)
  {
    if !ValidName(c.name) || !c.hasSpec then Thrown(s, Invalid)
    else if Has(s.clusters, c.name.value) then Thrown(s, Duplicate)
    else if !c.known then Thrown(s, Unsupported)
    else
      var o := AddEndPoints(PushCluster(s, c.name.value, c, auto), c.name.value, c.endpoints);
      if o.Thrown? || c.starts then o
      else
        var d := DeleteCluster(o.reg, c.name.value);
        if d.Thrown? then d else Thrown(d.reg, StartFailed)
  }

  // -------------------------------------------------------------------------------- routes

  /** Making up a name advances the counter, whether or not a free name is found. */
  function CountCluster(s: State, name: Option<string>): State {
    if IsGiven(name) then s else s.(ids := s.ids.(cluster := s.ids.cluster + 1))
  }

  /** An inline cluster, under its own name or a made-up one. */
  function AddInlineCluster(s: State, prefix: string, c: ClusterSpec): (r: (Out, string))
    ensures SameAbove(s, r.0.reg)
  {
    var n := PickName(c.name, s.clusters, prefix + Decimal(s.ids.cluster));
    var s1 := CountCluster(s, c.name);
    if n.None? then (Thrown(s1, NoFreshName), "") else (AddCluster(s1, c.(name := n), true), n.value)
  }

  function AddUse(s: State, prefix: string, use: Use<ClusterSpec>): (r: (Out, string))
    ensures SameAbove(s, r.0.reg)
  {
    match use
    case Other => (Thrown(s, Invalid), "")
    case Named(n) => (Done(s), n)
    case Inline(c) => AddInlineCluster(s, prefix, c)
  }

  /** The clusters of a route, left to right: their names, once inline ones are added. */
  function AddUses(s: State, prefix: string, uses: seq<Use<ClusterSpec>>): (r: (Out, seq<string>))
    ensures SameAbove(s, r.0.reg) && (r.0.Done? ==> |r.1| == |uses|)
    decreases |uses|
  {
    if uses == [] then (Done(s), [])
    else
      var o := AddUse(s, prefix, uses[0]);
      if o.0.Thrown? then (o.0, [])
      else
        var r := AddUses(o.0.reg, prefix, uses[1..]);
        (r.0, [o.1] + r.1)
  }

  /** Nothing above the routes changes. */
  predicate SameOverRoutes(s: State, t: State) {
    t.listeners == s.listeners && t.rulelists == s.rulelists && t.rules == s.rules
  }

  function AddRoute(s: State, r: RouteSpec, auto: bool): (o: Out)
    ensures SameOverRoutes(s, o.reg)
  {
    if !ValidName(r.name) || !r.wellFormed then Thrown(s, Invalid)
    else if Has(s.routes, r.name.value) then Thrown(s, Duplicate)
    else
      var n := r.name.value;
      var d := AddUses(s, n + "-Cluster-", [r.destination]);
      if d.0.Thrown? then d.0
      else
        var i := AddUses(d.0.reg, n + "-ingress-Cluster-", r.ingress);
        if i.0.Thrown? then i.0
        else
          var e := AddUses(i.0.reg, n + "-egress-Cluster-", r.egress);
          if e.0.Thrown? then e.0
          else
            Done(e.0.reg.(routes := e.0.reg.routes + [Entry(n, auto, RouteBody(d.1[0], i.1, e.1))]))
  }

  function Refs(b: RouteBody): seq<string> { [b.destination] + b.ingress + b.egress }

  /** Clusters named in a route go with it when they are autogenerated. */
  function DeleteUses(s: State, ns: seq<string>): (o: Out)
    ensures SameAbove(s, o.reg)
    decreases |ns|
  {
    if ns == [] then Done(s)
    else
      var o := if IsAuto(s.clusters, ns[0]) then DeleteCluster(s, ns[0]) else Done(s);
      if o.Thrown? then o else DeleteUses(o.reg, ns[1..])
  }

  function DeleteRoute(s: State, n: string, recursive: bool): (o: Out)
    ensures SameOverRoutes(s, o.reg)
  {
    var i := Find(s.routes, n);
    if i < 0 then Thrown(s, Unknown)
    else
      var o := if recursive then DeleteUses(s, Refs(s.routes[i].body)) else Done(s);
      if o.Thrown? then o else Done(o.reg.(routes := Splice(o.reg.routes, i)))
  }

  // --------------------------------------------------------------------------------- rules

  predicate SameLists(s: State, t: State) { t.listeners == s.listeners && t.rulelists == s.rulelists }

  function PushRule(s: State, n: string, r: RuleSpec, auto: bool): State {
    var ref := if r.route.None? then NoRoute else if r.route.value.Named? then To(r.route.value.name) else Pending;
    s.(rules := s.rules + [Entry(n, auto, ref)])
  }

  function CountRoute(s: State, name: Option<string>): State {
    if IsGiven(name) then s else s.(ids := s.ids.(route := s.ids.route + 1))
  }

  function AddInlineRoute(s: State, prefix: string, r: RouteSpec): (o: (Out, string))
    ensures SameOverRoutes(s, o.0.reg)
  {
    var n := PickName(r.name, s.routes, prefix + Decimal(s.ids.route));
    var s1 := CountRoute(s, r.name);
    if n.None? then (Thrown(s1, NoFreshName), "") else (AddRoute(s1, r.(name := n), true), n.value)
  }

  /** The rule is registered first; its route is replaced by a name afterwards. */
  function AddRule(s: State, r: RuleSpec, auto: bool): (o: Out)
    ensures SameLists(s, o.reg)
  {
    if !ValidName(r.name) || !r.hasAction then Thrown(s, Invalid)
    else if Has(s.rules, r.name.value) then Thrown(s, Duplicate)
    else
      var s1 := PushRule(s, r.name.value, r, auto);
      if r.route.None? || r.route.value.Named? then Done(s1)
      else if r.route.value.Other? then Thrown(s1, Invalid)
      else
        var o := AddInlineRoute(s1, r.name.value + "-Route-", r.route.value.spec);
        if o.0.Thrown? then o.0 else Done(SetRoute(o.0.reg, |s.rules|, o.1))
  }

  function SetRoute(s: State, k: nat, n: string): State
    requires k < |s.rules|
  {
    s.(rules := s.rules[k := s.rules[k].(body := To(n))])
  }

  /** The route of a rule goes with it when it is autogenerated. */
  function DeleteTarget(s: State, ref: RouteRef): (o: Out)
    ensures SameOverRoutes(s, o.reg)
  {
    if ref.To? && IsAuto(s.routes, ref.name) then DeleteRoute(s, ref.name, true) else Done(s)
  }

  function DeleteRule(s: State, n: string, recursive: bool): (o: Out)
    ensures SameLists(s, o.reg)
  {
    var i := Find(s.rules, n);
    if i < 0 then Thrown(s, Unknown)
    else
      var o := if recursive then DeleteTarget(s, s.rules[i].body) else Done(s);
      if o.Thrown? then o else Done(o.reg.(rules := Splice(o.reg.rules, i)))
  }

  // ----------------------------------------------------------------------------- rule lists

  predicate SameShape(s: State, t: State) {
    t.listeners == s.listeners && |t.rulelists| == |s.rulelists|
  }

  function SetList(s: State, k: nat, ns: seq<string>): State
    requires k < |s.rulelists|
  {
    s.(rulelists := s.rulelists[k := s.rulelists[k].(body := ns)])
  }

  function Insert(ns: seq<string>, pos: nat, n: string): seq<string>
    requires pos <= |ns|
  {
    ns[..pos] + [n] + ns[pos..]
  }

  function CountRule(s: State, name: Option<string>): State {
    if IsGiven(name) then s else s.(ids := s.ids.(rule := s.ids.rule + 1))
  }

  function AddInlineRule(s: State, prefix: string, r: RuleSpec): (o: (Out, string))
    ensures SameLists(s, o.0.reg)
  {
    var n := PickName(r.name, s.rules, prefix + Decimal(s.ids.rule));
    var s1 := CountRule(s, r.name);
    if n.None? then (Thrown(s1, NoFreshName), "") else (AddRule(s1, r.(name := n), true), n.value)
  }

  /** Lists are passed by reference: k is the place of the list in the registry. */
  function AddRuleToRuleList(s: State, k: nat, rule: Use<RuleSpec>, pos: int): (o: Out)
    requires k < |s.rulelists|
    ensures SameShape(s, o.reg)
  {
    var rl := s.rulelists[k];
    if pos < 0 || pos > |rl.body| then Thrown(s, Invalid)
    else
      match rule
      case Other => Thrown(s, Invalid)
      case Named(n) => Done(SetList(s, k, Insert(rl.body, pos, n)))
      case Inline(r) =>
        var o := AddInlineRule(s, rl.name + "-Rule-", r);
        if o.0.Thrown? then o.0 else Done(SetList(o.0.reg, k, Insert(rl.body, pos, o.1)))
  }

  function AddRules(s: State, k: nat, rules: seq<Use<RuleSpec>>, pos: nat): (o: Out)
    requires k < |s.rulelists|
    ensures SameShape(s, o.reg)
    decreases |rules|
  {
    if rules == [] then Done(s)
    else
      var o := AddRuleToRuleList(s, k, rules[0], pos);
      if o.Thrown? then o else AddRules(o.reg, k, rules[1..], pos + 1)
  }

  function AddRuleList(s: State, name: Option<string>, rules: seq<Use<RuleSpec>>, auto: bool): (o: Out)
    ensures o.reg.listeners == s.listeners
  {
    if !ValidName(name) then Thrown(s, Invalid)
    else if Has(s.rulelists, name.value) then Thrown(s, Duplicate)
    else AddRules(s.(rulelists := s.rulelists + [Entry(name.value, auto, [])]), |s.rulelists|, rules, 0)
  }

  function DeleteRuleFromRuleList(s: State, k: nat, pos: int, recursive: bool): (o: Out)
    requires k < |s.rulelists|
    ensures SameShape(s, o.reg)
  {
    var ns := s.rulelists[k].body;
    if pos < 0 || pos > |ns| then Thrown(s, Invalid)
    else
      var o :=
        if !recursive then Done(s)
        else if pos == |ns| then Thrown(s, Unknown)
        else DeleteRule(s, ns[pos], recursive);
      if o.Thrown? || pos == |ns| then o else Done(SetList(o.reg, k, Splice(ns, pos)))
  }

  /** Autogenerated rules are taken out of the list. */
  function Unlist(s: State, k: nat, n: string): (o: Out)
    requires k < |s.rulelists|
    ensures SameShape(s, o.reg)
  {
    if IsAuto(s.rules, n) then DeleteRuleFromRuleList(s, k, IndexOf(s.rulelists[k].body, n), false) else Done(s)
  }

  function DeleteListedOnce(s: State, k: nat, n: string): (o: Out)
    requires k < |s.rulelists|
    ensures SameShape(s, o.reg)
  {
    var o := Unlist(s, k, n);
    if o.Thrown? then o else DeleteRule(o.reg, n, true)
  }

  /** The recursive part of `deleteRuleList`: every listed rule goes, autogenerated or not. */
  function DeleteListed(s: State, k: nat, ns: seq<string>): (o: Out)
    requires k < |s.rulelists|
    ensures SameShape(s, o.reg)
    decreases |ns|
  {
    if ns == [] then Done(s)
    else
      var o := DeleteListedOnce(s, k, ns[0]);
      if o.Thrown? then o else DeleteListed(o.reg, k, ns[1..])
  }

  function DeleteRuleList(s: State, n: string, recursive: bool): (o: Out)
    ensures o.reg.listeners == s.listeners
  {
    var i := Find(s.rulelists, n);
    if i < 0 then Thrown(s, Unknown)
    else
      var o := if recursive then DeleteListed(s, i, s.rulelists[i].body) else Done(s);
      if o.Thrown? then o else Done(o.reg.(rulelists := Splice(o.reg.rulelists, i)))
  }

  // ------------------------------------------------------------------------------ listeners

  function CountList(s: State): State { s.(ids := s.ids.(rulelist := s.ids.rulelist + 1)) }

  function OwnListName(s: State, listener: string): Option<string> {
    NewName(s.rulelists, listener + "-RuleList-" + Decimal(s.ids.rulelist), 0)
  }

  /** The autogenerated list of a listener's own rules. */
  function AddOwnList(s: State, listener: string, us: seq<Use<RuleSpec>>): (r: (Out, string))
    ensures r.0.reg.listeners == s.listeners
  {
    var n := OwnListName(s, listener);
    if n.None? then (Thrown(CountList(s), NoFreshName), "") else (AddRuleList(CountList(s), n, us, true), n.value)
  }

  /** The rule list of a new listener: a reference, or a new list. */
  function BindRules(s: State, listener: string, rules: RulesUse): (r: (Out, string))
    ensures r.0.reg.listeners == s.listeners
  {
    match rules
    case Reference(n) => (Done(s), n)
    case Listing(us) => AddOwnList(s, listener, us)
  }

  /** `addListener` up to the call of `run`. */
  function Register(s: State, l: ListenerSpec, auto: bool): Out {
    if !ValidName(l.name) || !l.wellFormed then Thrown(s, Invalid)
    else if Has(s.listeners, l.name.value) then Thrown(s, Duplicate)
    else if !l.known then Thrown(s, Unsupported)
    else
      var b := BindRules(s, l.name.value, l.rules);
      if b.0.Thrown? then b.0 else Done(PushListener(b.0.reg, l.name.value, auto, b.1))
  }

  function PushListener(s: State, n: string, auto: bool, rules: string): State {
    s.(listeners := s.listeners + [Entry(n, auto, rules)])
  }

  function AddListener(s: State, l: ListenerSpec, auto: bool): Out {
    var o := Register(s, l, auto);
    if o.Thrown? || l.starts then o
    else
      var d := DeleteListener(o.reg, l.name.value, true);
      if d.Thrown? then d else Thrown(d.reg, StartFailed)
  }

  function DeleteListener(s: State, n: string, recursive: bool): Out {
    var i := Find(s.listeners, n);
    if i < 0 then Thrown(s, Unknown)
    else
      var rl := s.listeners[i].body;
      var o :=
        if recursive && IsAuto(s.rulelists, rl) then DeleteRuleList(s, rl, recursive) else Done(s);
      if o.Thrown? then o else Done(o.reg.(listeners := Splice(o.reg.listeners, i)))
  }
}
