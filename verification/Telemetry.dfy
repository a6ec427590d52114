/** Telemetry settings resolved for a workload from the mesh, its namespace and the selectors that match it. */
module Telemetry {
  import opened Options

  type Labels = map<string, string>
  type LogRule(==, !new)
  type MetricRule(==, !new)

  datatype Metrics = Metrics(providers: seq<string>, enabled: Option<bool>, rules: seq<Option<MetricRule>>)
  datatype Trace = Trace(
    providers: seq<string>, tags: seq<(string, string)>, sampling: Option<real>, disableReporting: Option<bool>)

  /** Entries of a list may be missing, as pointers may be nil. */
  datatype Spec = Spec(
    selector: Labels, logging: seq<Option<LogRule>>, metrics: seq<Option<Metrics>>, tracing: seq<Option<Trace>>)

  datatype Resource = Resource(name: string, namespace: string, created: int, spec: Option<Spec>)

  datatype Effective = Effective(
    configured: bool,
    providers: seq<string>,
    tags: seq<(string, string)>,
    sampling: Option<real>,
    disableReporting: Option<bool>,
    metricsConfigured: bool,
    metricProviders: seq<string>,
    enableMetrics: Option<bool>,
    metricRules: seq<MetricRule>,
    loggingConfigured: bool,
    logging: seq<LogRule>)

  const NOTHING := Effective(false, [], [], None, None, false, [], None, [], false, [])

  function Present<T>(s: seq<Option<T>>): seq<T> {
    if s == [] then []
    else Present(s[..|s| - 1]) + if s[|s| - 1].Some? then [s[|s| - 1].value] else []
  }

  // ---------------------------------------------------------------------------------------------
  // Order

  /** Strings in byte order. */
  predicate Below(s: string, t: string) {
    t != [] && (s == [] || s[0] < t[0] || (s[0] == t[0] && Below(s[1..], t[1..])))
  }

  lemma {:induction false} BelowIsTotal(s: string, t: string)
    ensures Below(s, t) || Below(t, s) || s == t
    ensures !(Below(s, t) && Below(t, s))
    ensures !Below(s, s)
  {
    if s != [] {
      BelowIsTotal(s[1..], s[1..]);
      if t != [] && s[0] == t[0] {
        BelowIsTotal(s[1..], t[1..]);
        assert s == [s[0]] + s[1..] && t == [t[0]] + t[1..];
      }
    }
  }

  lemma {:induction false} BelowIsTransitive(s: string, t: string, u: string)
    requires Below(s, t) && Below(t, u)
    ensures Below(s, u)
  {
    if s != [] && s[0] == t[0] == u[0] {
      BelowIsTransitive(s[1..], t[1..], u[1..]);
    }
  }

  predicate Earlier(a: Resource, b: Resource) {
    if a.created != b.created then a.created < b.created
    else if a.namespace != b.namespace then Below(a.namespace, b.namespace)
    else Below(a.name, b.name)
  }

  predicate SameKey(a: Resource, b: Resource) {
    a.created == b.created && a.namespace == b.namespace && a.name == b.name
  }

  lemma EarlierIsTotal(a: Resource, b: Resource)
    ensures Earlier(a, b) || Earlier(b, a) || SameKey(a, b)
    ensures !(Earlier(a, b) && Earlier(b, a))
    ensures SameKey(a, b) ==> !Earlier(a, b)
  {
    BelowIsTotal(a.namespace, b.namespace);
    BelowIsTotal(a.name, b.name);
  }

  lemma EarlierIsTransitive(a: Resource, b: Resource, c: Resource)
    requires Earlier(a, b) && Earlier(b, c)
    ensures Earlier(a, c)
  {
    if a.created == b.created == c.created {
      if a.namespace != b.namespace && b.namespace != c.namespace {
        BelowIsTransitive(a.namespace, b.namespace, c.namespace);
        BelowIsTotal(a.namespace, b.namespace);
      } else if a.namespace == b.namespace == c.namespace {
        BelowIsTransitive(a.name, b.name, c.name);
      }
    }
  }

  lemma NotEarlierIsTransitive(a: Resource, b: Resource, c: Resource)
    requires !Earlier(a, b) && !Earlier(b, c)
    ensures !Earlier(a, c)
  {
    EarlierIsTotal(b, c);
    if Earlier(a, c) && Earlier(c, b) {
      EarlierIsTransitive(a, c, b);
    }
  }

  ghost predicate Sorted(rs: seq<Resource>) {
    forall i, j :: 0 <= i < j < |rs| ==> !Earlier(rs[j], rs[i])
  }

  /** A new resource goes behind those it ties with: the sort is stable. */
  function Insert(rs: seq<Resource>, r: Resource): seq<Resource> {
    if rs == [] || !Earlier(r, rs[|rs| - 1]) then rs + [r]
    else Insert(rs[..|rs| - 1], r) + [rs[|rs| - 1]]
  }

  function Sort(rs: seq<Resource>): seq<Resource> {
    if rs == [] then [] else Insert(Sort(rs[..|rs| - 1]), rs[|rs| - 1])
  }

  lemma {:induction false} InsertKeepsElements(rs: seq<Resource>, r: Resource)
    ensures multiset(Insert(rs, r)) == multiset(rs) + multiset{r}
  {
    if rs != [] {
      assert rs == rs[..|rs| - 1] + [rs[|rs| - 1]];
      if Earlier(r, rs[|rs| - 1]) {
        InsertKeepsElements(rs[..|rs| - 1], r);
      }
    }
  }

  lemma SortedSnoc(rs: seq<Resource>, last: Resource)
    requires Sorted(rs) && forall i :: 0 <= i < |rs| ==> !Earlier(last, rs[i])
    ensures Sorted(rs + [last])
  {
  }

  lemma {:induction false} InsertKeeps(rs: seq<Resource>, r: Resource)
    ensures multiset(Insert(rs, r)) == multiset(rs) + multiset{r}
    ensures Sorted(rs) ==> Sorted(Insert(rs, r))
  {
    InsertKeepsElements(rs, r);
    if rs != [] && Sorted(rs) {
      var init, last := rs[..|rs| - 1], rs[|rs| - 1];
      if Earlier(r, last) {
        InsertKeeps(init, r);
        EarlierIsTotal(r, last);
        LastStaysLast(init, r, last);
        SortedSnoc(Insert(init, r), last);
      } else {
        forall i | 0 <= i < |rs| ensures !Earlier(r, rs[i]) {
          if i < |rs| - 1 {
            NotEarlierIsTransitive(r, last, rs[i]);
          }
        }
        SortedSnoc(rs, r);
      }
    }
  }

  lemma LastStaysLast(init: seq<Resource>, r: Resource, last: Resource)
    requires !Earlier(last, r) && forall i :: 0 <= i < |init| ==> !Earlier(last, init[i])
    ensures forall i :: 0 <= i < |Insert(init, r)| ==> !Earlier(last, Insert(init, r)[i])
  {
    InsertKeepsElements(init, r);
    forall i | 0 <= i < |Insert(init, r)| ensures !Earlier(last, Insert(init, r)[i]) {
      assert Insert(init, r)[i] in multiset(Insert(init, r));
    }
  }

  /** Those of one creation time, namespace and name, in the order listed. */
  function Ties(rs: seq<Resource>, a: Resource): seq<Resource> {
    if rs == [] then []
    else Ties(rs[..|rs| - 1], a) + if SameKey(rs[|rs| - 1], a) then [rs[|rs| - 1]] else []
  }

  lemma TiesSnoc(rs: seq<Resource>, r: Resource, a: Resource)
    ensures Ties(rs + [r], a) == Ties(rs, a) + if SameKey(r, a) then [r] else []
  {
    assert (rs + [r])[..|rs|] == rs;
  }

  lemma {:induction false} TiesConcat(p: seq<Resource>, q: seq<Resource>, a: Resource)
    ensures Ties(p + q, a) == Ties(p, a) + Ties(q, a)
    decreases |q|
  {
    if q == [] {
      assert p + q == p;
    } else {
      var init, last := q[..|q| - 1], q[|q| - 1];
      TiesConcat(p, init, a);
      assert p + q == p + init + [last];
      TiesSnoc(p + init, last, a);
    }
  }

  lemma {:induction false} InsertIsStable(rs: seq<Resource>, r: Resource, a: Resource)
    ensures Ties(Insert(rs, r), a) == Ties(rs + [r], a)
  {
    TiesSnoc(rs, r, a);
    if rs != [] && Earlier(r, rs[|rs| - 1]) {
      var init, last := rs[..|rs| - 1], rs[|rs| - 1];
      InsertIsStable(init, r, a);
      TiesSnoc(init, r, a);
      TiesSnoc(Insert(init, r), last, a);
      EarlierIsTotal(r, last);
    }
  }

  /** The sort orders, keeps every resource, and is stable. */
  lemma {:induction false} SortSorts(rs: seq<Resource>)
    ensures Sorted(Sort(rs)) && multiset(Sort(rs)) == multiset(rs)
    ensures forall a :: Ties(Sort(rs), a) == Ties(rs, a)
  {
    if rs != [] {
      var init, last := rs[..|rs| - 1], rs[|rs| - 1];
      SortSorts(init);
      InsertKeeps(Sort(init), last);
      LastOf(rs);
      forall a ensures Ties(Sort(rs), a) == Ties(rs, a) {
        InsertIsStable(Sort(init), last, a);
        TiesSnoc(Sort(init), last, a);
      }
    }
  }

  lemma LastOf(rs: seq<Resource>)
    requires rs != []
    ensures multiset(rs) == multiset(rs[..|rs| - 1]) + multiset{rs[|rs| - 1]}
  {
    assert rs == rs[..|rs| - 1] + [rs[|rs| - 1]];
  }

  lemma RestOf(rs: seq<Resource>)
    requires rs != []
    ensures multiset(rs[1..]) == multiset(rs) - multiset{rs[0]}
  {
    assert rs == [rs[0]] + rs[1..];
  }

  /** No two different resources share creation time, namespace and name. */
  ghost predicate NoClash(rs: seq<Resource>) {
    forall a, b :: a in rs && b in rs && SameKey(a, b) ==> a == b
  }

  lemma {:induction false} SortedIsUnique(a: seq<Resource>, b: seq<Resource>)
    requires Sorted(a) && Sorted(b) && multiset(a) == multiset(b) && NoClash(a)
    ensures a == b
    decreases |a|
  {
    assert |a| == |multiset(a)| == |multiset(b)| == |b|;
    if a != [] {
      assert a[0] in multiset(b) && b[0] in multiset(a);
      EarlierIsTotal(a[0], b[0]);
      assert !Earlier(a[0], b[0]) && !Earlier(b[0], a[0]);
      RestOf(a);
      RestOf(b);
      SortedIsUnique(a[1..], b[1..]);
    }
  }

  lemma PermutedSortsSame(rs: seq<Resource>, rs': seq<Resource>)
    requires multiset(rs) == multiset(rs') && NoClash(rs)
    ensures Sort(rs') == Sort(rs)
  {
    SortSorts(rs);
    SortSorts(rs');
    forall a | a in Sort(rs) ensures a in rs {
      assert a in multiset(Sort(rs));
    }
    SortedIsUnique(Sort(rs), Sort(rs'));
  }

  /** Bring two of a list to its front. */
  lemma ToFront(rs: seq<Resource>, i: nat, j: nat) returns (rest: seq<Resource>)
    requires i < j < |rs|
    ensures multiset([rs[i], rs[j]] + rest) == multiset(rs)
    ensures multiset([rs[j], rs[i]] + rest) == multiset(rs)
  {
    rest := rs[..i] + rs[i + 1..j] + rs[j + 1..];
    assert rs == rs[..i] + [rs[i]] + rs[i + 1..j] + [rs[j]] + rs[j + 1..];
  }

  lemma SwappedTiesSortApart(a: Resource, b: Resource, rest: seq<Resource>)
    requires SameKey(a, b) && a != b
    ensures Sort([a, b] + rest) != Sort([b, a] + rest)
  {
    SortSorts([a, b] + rest);
    SortSorts([b, a] + rest);
    TwoTies(a, b, rest);
    TwoTies(b, a, rest);
    assert ([a, b] + Ties(rest, a))[0] != ([b, a] + Ties(rest, a))[0];
  }

  lemma TwoTies(a: Resource, b: Resource, rest: seq<Resource>)
    requires SameKey(a, b)
    ensures Ties([a, b] + rest, a) == [a, b] + Ties(rest, a)
    ensures Ties([a, b] + rest, b) == [a, b] + Ties(rest, b)
  {
    TiesConcat([a, b], rest, a);
    TiesConcat([a, b], rest, b);
    assert [a, b][..1] == [a] && [a][..0] == [];
    assert Ties([a], a) == [a] && Ties([a], b) == [a];
  }

  /** Every listing of the same resources is brought into one order, if and only if there is no clash. */
  lemma SortIgnoresOrderIff(rs: seq<Resource>)
    ensures (forall rs' :: multiset(rs') == multiset(rs) ==> Sort(rs') == Sort(rs)) <==> NoClash(rs)
  {
    if NoClash(rs) {
      forall rs' | multiset(rs') == multiset(rs) ensures Sort(rs') == Sort(rs) {
        PermutedSortsSame(rs, rs');
      }
    } else {
      var p, q := ClashSortsApart(rs);
    }
  }

  lemma ClashSortsApart(rs: seq<Resource>) returns (p: seq<Resource>, q: seq<Resource>)
    requires !NoClash(rs)
    ensures multiset(p) == multiset(rs) && multiset(q) == multiset(rs) && Sort(p) != Sort(q)
  {
    var a, b :| a in rs && b in rs && SameKey(a, b) && a != b;
    var i: nat :| i < |rs| && rs[i] == a;
    var j: nat :| j < |rs| && rs[j] == b;
    var rest := ToFront(rs, if i < j then i else j, if i < j then j else i);
    p, q := [a, b] + rest, [b, a] + rest;
    SwappedTiesSortApart(a, b, rest);
  }

  // ---------------------------------------------------------------------------------------------
  // Layers

  predicate Matches(selector: Labels, labels: Labels) {
    forall k <- selector :: selector[k] == if k in labels then labels[k] else ""
  }

  method MatchesLabels(selector: Labels, labels: Labels) returns (r: bool)
    ensures r == Matches(selector, labels)
  {
    var todo := selector.Keys;
    while todo != {}
      invariant todo <= selector.Keys
      invariant forall k :: k in selector && k !in todo ==> selector[k] == if k in labels then labels[k] else ""
      decreases |todo|
    {
      var k :| k in todo;
      if selector[k] != if k in labels then labels[k] else "" {
        return false;
      }
      todo := todo - {k};
    }
    return true;
  }

  predicate AtLevel(r: Resource, namespace: string) {
    r.namespace == namespace && r.spec.Some? && |r.spec.value.selector| == 0
  }

  function Chosen(r: Resource, namespace: string, labels: Labels): seq<Spec> {
    if Selects(r, namespace, labels) then [r.spec.value] else []
  }

  predicate Selects(r: Resource, namespace: string, labels: Labels) {
    && r.namespace == namespace && r.spec.Some? && |r.spec.value.selector| != 0
    && Matches(r.spec.value.selector, labels)
  }

  function FirstLevel(rs: seq<Resource>, namespace: string): seq<Spec> {
    if rs == [] then []
    else if AtLevel(rs[0], namespace) then [rs[0].spec.value]
    else FirstLevel(rs[1..], namespace)
  }

  function Selected(rs: seq<Resource>, namespace: string, labels: Labels): seq<Spec> {
    if rs == [] then []
    else Selected(rs[..|rs| - 1], namespace, labels) + Chosen(rs[|rs| - 1], namespace, labels)
  }

  /** From least to most specific. */
  function Layers(rs: seq<Resource>, mesh: string, namespace: string, labels: Labels): seq<Spec> {
    FirstLevel(rs, mesh) + (if namespace != mesh then FirstLevel(rs, namespace) else [])
    + Selected(rs, namespace, labels)
  }

  // ---------------------------------------------------------------------------------------------
  // What the layers set

  /** What the last item that sets it sets. */
  function Last<T, U>(items: seq<T>, pick: T -> Option<U>): Option<U> {
    if items == [] then None
    else if pick(items[|items| - 1]).Some? then pick(items[|items| - 1])
    else Last(items[..|items| - 1], pick)
  }

  /** It comes from an item behind which no other sets it; without one, nothing sets it. */
  lemma {:induction false} LastIsLast<T, U>(items: seq<T>, pick: T -> Option<U>)
    ensures Last(items, pick).None? <==> forall n :: 0 <= n < |items| ==> pick(items[n]).None?
    ensures
      Last(items, pick).Some? ==>
        exists n :: 0 <= n < |items| && pick(items[n]) == Last(items, pick)
          && forall k :: n < k < |items| ==> pick(items[k]).None?
  {
    if items != [] && pick(items[|items| - 1]).None? {
      var init := items[..|items| - 1];
      LastIsLast(init, pick);
      if Last(init, pick).Some? {
        var n :| 0 <= n < |init| && pick(init[n]) == Last(init, pick)
          && forall k :: n < k < |init| ==> pick(init[k]).None?;
        assert pick(items[n]) == Last(items, pick);
      } else {
        forall n | 0 <= n < |items| ensures pick(items[n]).None? {
          assert n < |init| ==> items[n] == init[n];
        }
      }
    }
  }

  function OrEmpty<T>(o: Option<seq<T>>): seq<T> {
    if o.Some? then o.value else []
  }

  function IfAny<T>(s: seq<T>): Option<seq<T>> {
    if s == [] then None else Some(s)
  }

  function TraceProviders(t: Trace): Option<seq<string>> {
    IfAny(t.providers)
  }

  function TraceTags(t: Trace): Option<seq<(string, string)>> {
    IfAny(t.tags)
  }

  function Sampling(t: Trace): Option<real> {
    t.sampling
  }

  function Reporting(t: Trace): Option<bool> {
    t.disableReporting
  }

  function MetricProviders(m: Metrics): Option<seq<string>> {
    IfAny(m.providers)
  }

  function MetricEnabled(m: Metrics): Option<bool> {
    m.enabled
  }

  function SetRules(m: Metrics): Option<seq<MetricRule>> {
    if m.rules == [] then None else Some(Present(m.rules))
  }

  function SetLogging(s: Spec): Option<seq<LogRule>> {
    if s.logging == [] then None else Some(Present(s.logging))
  }

  function AllMetrics(layers: seq<Spec>): seq<Metrics> {
    if layers == [] then [] else AllMetrics(layers[..|layers| - 1]) + Present(layers[|layers| - 1].metrics)
  }

  function AllTraces(layers: seq<Spec>): seq<Trace> {
    if layers == [] then [] else AllTraces(layers[..|layers| - 1]) + Present(layers[|layers| - 1].tracing)
  }

  /** Each field from the last item that sets it. */
  function Summary(logging: Option<seq<LogRule>>, metrics: seq<Metrics>, traces: seq<Trace>): Effective {
    Effective(
      traces != [],
      OrEmpty(Last(traces, TraceProviders)),
      OrEmpty(Last(traces, TraceTags)),
      Last(traces, Sampling),
      Last(traces, Reporting),
      metrics != [],
      OrEmpty(Last(metrics, MetricProviders)),
      Last(metrics, MetricEnabled),
      OrEmpty(Last(metrics, SetRules)),
      logging.Some?,
      OrEmpty(logging))
  }

  function Resolved(layers: seq<Spec>): Effective {
    Summary(Last(layers, SetLogging), AllMetrics(layers), AllTraces(layers))
  }

  lemma PresentSnoc<T>(s: seq<Option<T>>, n: nat)
    requires n < |s|
    ensures Present(s[..n + 1]) == Present(s[..n]) + if s[n].Some? then [s[n].value] else []
  {
    assert s[..n + 1][..n] == s[..n];
  }

  lemma LastSnoc<T, U>(items: seq<T>, x: T, pick: T -> Option<U>)
    ensures Last(items + [x], pick) == if pick(x).Some? then pick(x) else Last(items, pick)
  {
    assert (items + [x])[..|items|] == items;
  }

  // ---------------------------------------------------------------------------------------------
  // Precedence among resources

  /** The first of the namespace with a spec and no selector. */
  ghost predicate IsLevelOf(rs: seq<Resource>, n: nat, namespace: string) {
    && n < |rs| && rs[n].namespace == namespace && rs[n].spec.Some? && rs[n].spec.value.selector == map[]
    && forall m :: 0 <= m < n ==>
         rs[m].namespace != namespace || rs[m].spec.None? || rs[m].spec.value.selector != map[]
  }

  /** In the workload's namespace, with a selector each of whose labels the workload has; none counts as empty. */
  ghost predicate IsSelector(rs: seq<Resource>, n: nat, namespace: string, labels: Labels) {
    && n < |rs| && rs[n].namespace == namespace && rs[n].spec.Some? && rs[n].spec.value.selector != map[]
    && forall k :: k in rs[n].spec.value.selector ==>
         rs[n].spec.value.selector[k] == if k in labels then labels[k] else ""
  }

  /** From least to most specific: the mesh, the namespace, and the selectors in their order; None if not at all. */
  ghost function Rank(rs: seq<Resource>, n: nat, mesh: string, namespace: string, labels: Labels): Option<nat> {
    if IsSelector(rs, n, namespace, labels) then Some(2 + n)
    else if IsLevelOf(rs, n, mesh) then Some(0)
    else if IsLevelOf(rs, n, namespace) then Some(1)
    else None
  }

  /** Resource m counts for the workload, and is more specific than n. */
  ghost predicate Outranks(rs: seq<Resource>, m: nat, n: nat, mesh: string, namespace: string, labels: Labels) {
    var a, b := Rank(rs, m, mesh, namespace, labels), Rank(rs, n, mesh, namespace, labels);
    m < |rs| && rs[m].spec.Some? && a.Some? && (b.None? || a.value > b.value)
  }

  /** Resource n sets v, and no more specific one sets anything. */
  ghost predicate Decides<U(!new)>(
      rs: seq<Resource>, n: nat, mesh: string, namespace: string, labels: Labels, sets: Spec -> Option<U>, v: U)
  {
    && n < |rs| && rs[n].spec.Some? && Rank(rs, n, mesh, namespace, labels).Some? && sets(rs[n].spec.value) == Some(v)
    && forall m: nat :: Outranks(rs, m, n, mesh, namespace, labels) ==> sets(rs[m].spec.value).None?
  }

  /** v is what the most specific resource that sets it sets; None if no resource that counts does. */
  ghost predicate MostSpecific<U(!new)>(
      rs: seq<Resource>, mesh: string, namespace: string, labels: Labels, sets: Spec -> Option<U>, v: Option<U>)
  {
    match v
    case None =>
      forall n :: 0 <= n < |rs| && rs[n].spec.Some? && Rank(rs, n, mesh, namespace, labels).Some? ==>
        sets(rs[n].spec.value).None?
    case Some(u) => exists n: nat :: Decides(rs, n, mesh, namespace, labels, sets, u)
  }

  lemma {:induction false} LastConcat<T, U>(a: seq<T>, b: seq<T>, pick: T -> Option<U>)
    ensures Last(a + b, pick) == if Last(b, pick).Some? then Last(b, pick) else Last(a, pick)
    decreases |b|
  {
    if b == [] {
      assert a + b == a;
    } else {
      LastConcat(a, b[..|b| - 1], pick);
      assert (a + b)[..|a + b| - 1] == a + b[..|b| - 1];
    }
  }

  lemma {:induction false} FirstLevelIs(rs: seq<Resource>, namespace: string, k: nat)
    requires k <= |rs| && forall m :: 0 <= m < k ==> !AtLevel(rs[m], namespace)
    ensures
      FirstLevel(rs[k..], namespace) == [] ==> forall n: nat :: !IsLevelOf(rs, n, namespace)
    ensures
      FirstLevel(rs[k..], namespace) != [] ==>
        exists n: nat :: IsLevelOf(rs, n, namespace) && FirstLevel(rs[k..], namespace) == [rs[n].spec.value]
    decreases |rs| - k
  {
    if k < |rs| {
      assert rs[k..][1..] == rs[k + 1..];
      if AtLevel(rs[k], namespace) {
        assert IsLevelOf(rs, k, namespace);
      } else {
        FirstLevelIs(rs, namespace, k + 1);
      }
    }
  }

  lemma OneLevel(rs: seq<Resource>, namespace: string, a: nat, b: nat)
    requires IsLevelOf(rs, a, namespace) && IsLevelOf(rs, b, namespace)
    ensures a == b
  {
  }

  lemma SelectsIff(rs: seq<Resource>, n: nat, namespace: string, labels: Labels)
    requires n < |rs|
    ensures Selects(rs[n], namespace, labels) <==> IsSelector(rs, n, namespace, labels)
  {
  }

  lemma LastSelectedOneMore<U>(
      rs: seq<Resource>, k: nat, namespace: string, labels: Labels, sets: Spec -> Option<U>)
    requires k < |rs|
    ensures
      Last(Selected(rs[..k + 1], namespace, labels), sets) ==
      if Selects(rs[k], namespace, labels) && sets(rs[k].spec.value).Some? then sets(rs[k].spec.value)
      else Last(Selected(rs[..k], namespace, labels), sets)
  {
    assert rs[..k + 1][..k] == rs[..k];
    LastConcat(Selected(rs[..k], namespace, labels), Chosen(rs[k], namespace, labels), sets);
  }

  /** v is what the last selector among the first k that sets it sets: resource n, if any does. */
  ghost predicate IsLastSelector<U(!new)>(
      rs: seq<Resource>, k: nat, namespace: string, labels: Labels, sets: Spec -> Option<U>, v: Option<U>, n: nat)
    requires k <= |rs|
  {
    if v.Some? then
      && n < k && IsSelector(rs, n, namespace, labels) && sets(rs[n].spec.value) == v
      && forall m :: n < m < k && IsSelector(rs, m, namespace, labels) ==> sets(rs[m].spec.value).None?
    else forall m :: 0 <= m < k && IsSelector(rs, m, namespace, labels) ==> sets(rs[m].spec.value).None?
  }

  lemma {:induction false} SelectedLast<U(!new)>(
      rs: seq<Resource>, k: nat, namespace: string, labels: Labels, sets: Spec -> Option<U>)
    returns (v: Option<U>, n: nat)
    requires k <= |rs|
    ensures v == Last(Selected(rs[..k], namespace, labels), sets)
    ensures IsLastSelector(rs, k, namespace, labels, sets, v, n)
  {
    v, n := None, 0;
    if k > 0 {
      var before, at := SelectedLast(rs, k - 1, namespace, labels, sets);
      LastSelectedOneMore(rs, k - 1, namespace, labels, sets);
      SelectsIff(rs, k - 1, namespace, labels);
      v, n := NextSelector(rs, k - 1, namespace, labels, sets, before, at);
    }
  }

  lemma NextSelector<U(!new)>(
      rs: seq<Resource>, k: nat, namespace: string, labels: Labels, sets: Spec -> Option<U>, before: Option<U>, at: nat)
    returns (v: Option<U>, n: nat)
    requires k < |rs| && IsLastSelector(rs, k, namespace, labels, sets, before, at)
    ensures v == if IsSelector(rs, k, namespace, labels) && sets(rs[k].spec.value).Some? then sets(rs[k].spec.value)
                 else before
    ensures IsLastSelector(rs, k + 1, namespace, labels, sets, v, n)
  {
    v, n := before, at;
    if IsSelector(rs, k, namespace, labels) && sets(rs[k].spec.value).Some? {
      v, n := sets(rs[k].spec.value), k;
    }
  }

  /** Layer by layer, the last to set it is the most specific resource that does. */
  lemma LayersArePrecedence<U(!new)>(
      rs: seq<Resource>, mesh: string, namespace: string, labels: Labels, sets: Spec -> Option<U>)
    ensures
      MostSpecific(rs, mesh, namespace, labels, sets, Last(Layers(rs, mesh, namespace, labels), sets))
  {
    var a, b := FirstLevel(rs, mesh), if namespace != mesh then FirstLevel(rs, namespace) else [];
    var c := Selected(rs, namespace, labels);
    LastConcat(a + b, c, sets);
    LastConcat(a, b, sets);
    SelectorDecides(rs, mesh, namespace, labels, sets);
    if Last(c, sets).None? {
      if Last(b, sets).Some? {
        NamespaceDecides(rs, mesh, namespace, labels, sets);
      } else if Last(a, sets).Some? {
        MeshDecides(rs, mesh, namespace, labels, sets);
      } else {
        NobodyDecides(rs, mesh, namespace, labels, sets);
      }
    }
  }

  lemma SelectorDecides<U(!new)>(
      rs: seq<Resource>, mesh: string, namespace: string, labels: Labels, sets: Spec -> Option<U>)
    ensures
      var v := Last(Selected(rs, namespace, labels), sets);
      if v.Some? then MostSpecific(rs, mesh, namespace, labels, sets, v)
      else NoSelectorSets(rs, namespace, labels, sets)
  {
    var v, n := SelectedLast(rs, |rs|, namespace, labels, sets);
    assert rs[..|rs|] == rs;
    if v.Some? {
      assert Decides(rs, n, mesh, namespace, labels, sets, v.value);
    }
  }

  /** No selector that matches sets it. */
  ghost predicate NoSelectorSets<U(!new)>(
      rs: seq<Resource>, namespace: string, labels: Labels, sets: Spec -> Option<U>)
  {
    forall m :: 0 <= m < |rs| && IsSelector(rs, m, namespace, labels) ==> sets(rs[m].spec.value).None?
  }

  lemma NamespaceDecides<U(!new)>(
      rs: seq<Resource>, mesh: string, namespace: string, labels: Labels, sets: Spec -> Option<U>)
    requires NoSelectorSets(rs, namespace, labels, sets) && namespace != mesh
    requires Last(FirstLevel(rs, namespace), sets).Some?
    ensures MostSpecific(rs, mesh, namespace, labels, sets, Last(FirstLevel(rs, namespace), sets))
  {
    assert rs[0..] == rs;
    FirstLevelIs(rs, namespace, 0);
    var n: nat :| IsLevelOf(rs, n, namespace) && FirstLevel(rs, namespace) == [rs[n].spec.value];
    assert Decides(rs, n, mesh, namespace, labels, sets, Last(FirstLevel(rs, namespace), sets).value);
  }

  lemma MeshDecides<U(!new)>(
      rs: seq<Resource>, mesh: string, namespace: string, labels: Labels, sets: Spec -> Option<U>)
    requires NoSelectorSets(rs, namespace, labels, sets)
    requires namespace != mesh ==> Last(FirstLevel(rs, namespace), sets).None?
    requires Last(FirstLevel(rs, mesh), sets).Some?
    ensures MostSpecific(rs, mesh, namespace, labels, sets, Last(FirstLevel(rs, mesh), sets))
  {
    assert rs[0..] == rs;
    FirstLevelIs(rs, mesh, 0);
    FirstLevelIs(rs, namespace, 0);
    var n: nat :| IsLevelOf(rs, n, mesh) && FirstLevel(rs, mesh) == [rs[n].spec.value];
    forall m: nat | Outranks(rs, m, n, mesh, namespace, labels) ensures sets(rs[m].spec.value).None? {
      if IsLevelOf(rs, m, namespace) && !IsSelector(rs, m, namespace, labels) {
        LevelSets(rs, m, namespace, sets);
      }
    }
    assert Decides(rs, n, mesh, namespace, labels, sets, Last(FirstLevel(rs, mesh), sets).value);
  }

  lemma LevelSets<U>(rs: seq<Resource>, n: nat, namespace: string, sets: Spec -> Option<U>)
    requires IsLevelOf(rs, n, namespace)
    ensures Last(FirstLevel(rs, namespace), sets) == sets(rs[n].spec.value)
  {
    assert rs[0..] == rs;
    FirstLevelIs(rs, namespace, 0);
    var m: nat :| IsLevelOf(rs, m, namespace) && FirstLevel(rs, namespace) == [rs[m].spec.value];
    OneLevel(rs, namespace, m, n);
  }

  lemma NobodyDecides<U(!new)>(
      rs: seq<Resource>, mesh: string, namespace: string, labels: Labels, sets: Spec -> Option<U>)
    requires NoSelectorSets(rs, namespace, labels, sets)
    requires namespace != mesh ==> Last(FirstLevel(rs, namespace), sets).None?
    requires Last(FirstLevel(rs, mesh), sets).None?
    ensures MostSpecific(rs, mesh, namespace, labels, sets, None)
  {
    forall n | 0 <= n < |rs| && rs[n].spec.Some? && Rank(rs, n, mesh, namespace, labels).Some?
      ensures sets(rs[n].spec.value).None?
    {
      if !IsSelector(rs, n, namespace, labels) {
        if IsLevelOf(rs, n, mesh) {
          LevelSets(rs, n, mesh, sets);
        } else {
          LevelSets(rs, n, namespace, sets);
        }
      }
    }
  }

  // What one spec sets: of its items that are there, the last to set the field.

  function LastSet<T, U>(items: seq<Option<T>>, field: T -> Option<U>): Option<U> {
    if items == [] then None
    else
      var last := items[|items| - 1];
      if last.Some? && field(last.value).Some? then field(last.value) else LastSet(items[..|items| - 1], field)
  }

  function Given<T>(list: seq<T>): Option<seq<T>> {
    if |list| > 0 then Some(list) else None
  }

  function SpecProviders(s: Spec): Option<seq<string>> {
    LastSet(s.tracing, (t: Trace) => Given(t.providers))
  }

  function SpecTags(s: Spec): Option<seq<(string, string)>> {
    LastSet(s.tracing, (t: Trace) => Given(t.tags))
  }

  function SpecSampling(s: Spec): Option<real> {
    LastSet(s.tracing, (t: Trace) => t.sampling)
  }

  function SpecReporting(s: Spec): Option<bool> {
    LastSet(s.tracing, (t: Trace) => t.disableReporting)
  }

  function SpecMetricProviders(s: Spec): Option<seq<string>> {
    LastSet(s.metrics, (m: Metrics) => Given(m.providers))
  }

  function SpecMetricEnabled(s: Spec): Option<bool> {
    LastSet(s.metrics, (m: Metrics) => m.enabled)
  }

  function SpecRules(s: Spec): Option<seq<MetricRule>> {
    LastSet(s.metrics, (m: Metrics) => if |m.rules| > 0 then Some(Present(m.rules)) else None)
  }

  function SpecLogging(s: Spec): Option<seq<LogRule>> {
    if |s.logging| > 0 then Some(Present(s.logging)) else None
  }

  lemma {:induction false} LastSetIs<T(!new), U>(items: seq<Option<T>>, field: T -> Option<U>, pick: T -> Option<U>)
    requires forall x :: field(x) == pick(x)
    ensures LastSet(items, field) == Last(Present(items), pick)
  {
    if items != [] {
      LastSetIs(items[..|items| - 1], field, pick);
      if items[|items| - 1].Some? {
        LastSnoc(Present(items[..|items| - 1]), items[|items| - 1].value, pick);
      } else {
        assert Present(items) == Present(items[..|items| - 1]);
      }
    }
  }

  lemma {:induction false} LastSame<T(!new), U>(items: seq<T>, f: T -> Option<U>, g: T -> Option<U>)
    requires forall x :: f(x) == g(x)
    ensures Last(items, f) == Last(items, g)
  {
    if items != [] {
      LastSame(items[..|items| - 1], f, g);
    }
  }

  function HasTracing(s: Spec): Option<bool> {
    if exists n :: 0 <= n < |s.tracing| && s.tracing[n].Some? then Some(true) else None
  }

  function HasMetrics(s: Spec): Option<bool> {
    if exists n :: 0 <= n < |s.metrics| && s.metrics[n].Some? then Some(true) else None
  }

  lemma {:induction false} PresentIff<T>(s: seq<Option<T>>)
    ensures Present(s) != [] <==> exists n :: 0 <= n < |s| && s[n].Some?
  {
    if s != [] {
      var init := s[..|s| - 1];
      PresentIff(init);
      assert forall n :: 0 <= n < |init| ==> init[n] == s[n];
      if n :| 0 <= n < |s| && s[n].Some? && n < |init| {
        assert init[n].Some?;
      }
    }
  }

  lemma {:induction false} AnyTraces(layers: seq<Spec>)
    ensures Last(layers, HasTracing) == if AllTraces(layers) != [] then Some(true) else None
  {
    if layers != [] {
      AnyTraces(layers[..|layers| - 1]);
      PresentIff(layers[|layers| - 1].tracing);
    }
  }

  lemma {:induction false} AnyMetrics(layers: seq<Spec>)
    ensures Last(layers, HasMetrics) == if AllMetrics(layers) != [] then Some(true) else None
  {
    if layers != [] {
      AnyMetrics(layers[..|layers| - 1]);
      PresentIff(layers[|layers| - 1].metrics);
    }
  }

  lemma {:induction false} LastOfTraces<U>(layers: seq<Spec>, pick: Trace -> Option<U>, sets: Spec -> Option<U>)
    requires forall s :: sets(s) == Last(Present(s.tracing), pick)
    ensures Last(AllTraces(layers), pick) == Last(layers, sets)
  {
    if layers != [] {
      LastOfTraces(layers[..|layers| - 1], pick, sets);
      LastConcat(AllTraces(layers[..|layers| - 1]), Present(layers[|layers| - 1].tracing), pick);
    }
  }

  lemma {:induction false} LastOfMetrics<U>(layers: seq<Spec>, pick: Metrics -> Option<U>, sets: Spec -> Option<U>)
    requires forall s :: sets(s) == Last(Present(s.metrics), pick)
    ensures Last(AllMetrics(layers), pick) == Last(layers, sets)
  {
    if layers != [] {
      LastOfMetrics(layers[..|layers| - 1], pick, sets);
      LastConcat(AllMetrics(layers[..|layers| - 1]), Present(layers[|layers| - 1].metrics), pick);
    }
  }

  lemma TraceFields(s: Spec)
    ensures SpecProviders(s) == Last(Present(s.tracing), TraceProviders)
    ensures SpecTags(s) == Last(Present(s.tracing), TraceTags)
    ensures SpecSampling(s) == Last(Present(s.tracing), Sampling)
    ensures SpecReporting(s) == Last(Present(s.tracing), Reporting)
  {
    LastSetIs(s.tracing, (t: Trace) => Given(t.providers), TraceProviders);
    LastSetIs(s.tracing, (t: Trace) => Given(t.tags), TraceTags);
    LastSetIs(s.tracing, (t: Trace) => t.sampling, Sampling);
    LastSetIs(s.tracing, (t: Trace) => t.disableReporting, Reporting);
  }

  lemma MetricFields(s: Spec)
    ensures SpecMetricProviders(s) == Last(Present(s.metrics), MetricProviders)
    ensures SpecMetricEnabled(s) == Last(Present(s.metrics), MetricEnabled)
    ensures SpecRules(s) == Last(Present(s.metrics), SetRules)
  {
    LastSetIs(s.metrics, (m: Metrics) => Given(m.providers), MetricProviders);
    LastSetIs(s.metrics, (m: Metrics) => m.enabled, MetricEnabled);
    LastSetIs(s.metrics, (m: Metrics) => if |m.rules| > 0 then Some(Present(m.rules)) else None, SetRules);
  }

  /** An empty list counts as not set. */
  ghost predicate SetTo<T>(list: seq<T>, v: Option<seq<T>>) {
    list == if v.Some? then v.value else []
  }

  /** Field by field, the result is what the most specific resource says. */
  ghost predicate IsResolution(rs: seq<Resource>, mesh: string, namespace: string, labels: Labels, r: Effective) {
    && (exists v :: SetTo(r.providers, v) && MostSpecific(rs, mesh, namespace, labels, SpecProviders, v))
    && (exists v :: SetTo(r.tags, v) && MostSpecific(rs, mesh, namespace, labels, SpecTags, v))
    && MostSpecific(rs, mesh, namespace, labels, SpecSampling, r.sampling)
    && MostSpecific(rs, mesh, namespace, labels, SpecReporting, r.disableReporting)
    && (exists v :: SetTo(r.metricProviders, v) && MostSpecific(rs, mesh, namespace, labels, SpecMetricProviders, v))
    && MostSpecific(rs, mesh, namespace, labels, SpecMetricEnabled, r.enableMetrics)
    && (exists v :: SetTo(r.metricRules, v) && MostSpecific(rs, mesh, namespace, labels, SpecRules, v))
    && MostSpecific(rs, mesh, namespace, labels, HasTracing, if r.configured then Some(true) else None)
    && MostSpecific(rs, mesh, namespace, labels, HasMetrics, if r.metricsConfigured then Some(true) else None)
    && (exists v :: SetTo(r.logging, v) && (r.loggingConfigured <==> v.Some?)
         && MostSpecific(rs, mesh, namespace, labels, SpecLogging, v))
  }

  lemma TracesAreResolved(rs: seq<Resource>, mesh: string, namespace: string, labels: Labels)
    ensures
      var layers := Layers(rs, mesh, namespace, labels);
      && MostSpecific(rs, mesh, namespace, labels, SpecProviders, Last(AllTraces(layers), TraceProviders))
      && MostSpecific(rs, mesh, namespace, labels, SpecTags, Last(AllTraces(layers), TraceTags))
      && MostSpecific(rs, mesh, namespace, labels, SpecSampling, Last(AllTraces(layers), Sampling))
      && MostSpecific(rs, mesh, namespace, labels, SpecReporting, Last(AllTraces(layers), Reporting))
  {
    var layers := Layers(rs, mesh, namespace, labels);
    forall s ensures SpecProviders(s) == Last(Present(s.tracing), TraceProviders)
      && SpecTags(s) == Last(Present(s.tracing), TraceTags) && SpecSampling(s) == Last(Present(s.tracing), Sampling)
      && SpecReporting(s) == Last(Present(s.tracing), Reporting)
    {
      TraceFields(s);
    }
    LastOfTraces(layers, TraceProviders, SpecProviders);
    LastOfTraces(layers, TraceTags, SpecTags);
    LastOfTraces(layers, Sampling, SpecSampling);
    LastOfTraces(layers, Reporting, SpecReporting);
    LayersArePrecedence(rs, mesh, namespace, labels, SpecProviders);
    LayersArePrecedence(rs, mesh, namespace, labels, SpecTags);
    LayersArePrecedence(rs, mesh, namespace, labels, SpecSampling);
    LayersArePrecedence(rs, mesh, namespace, labels, SpecReporting);
  }

  lemma MetricsAreResolved(rs: seq<Resource>, mesh: string, namespace: string, labels: Labels)
    ensures
      var layers := Layers(rs, mesh, namespace, labels);
      && MostSpecific(rs, mesh, namespace, labels, SpecMetricProviders, Last(AllMetrics(layers), MetricProviders))
      && MostSpecific(rs, mesh, namespace, labels, SpecMetricEnabled, Last(AllMetrics(layers), MetricEnabled))
      && MostSpecific(rs, mesh, namespace, labels, SpecRules, Last(AllMetrics(layers), SetRules))
      && MostSpecific(rs, mesh, namespace, labels, SpecLogging, Last(layers, SetLogging))
  {
    var layers := Layers(rs, mesh, namespace, labels);
    forall s ensures SpecMetricProviders(s) == Last(Present(s.metrics), MetricProviders)
      && SpecMetricEnabled(s) == Last(Present(s.metrics), MetricEnabled)
      && SpecRules(s) == Last(Present(s.metrics), SetRules)
    {
      MetricFields(s);
    }
    LastSame(layers, SetLogging, SpecLogging);
    LastOfMetrics(layers, MetricProviders, SpecMetricProviders);
    LastOfMetrics(layers, MetricEnabled, SpecMetricEnabled);
    LastOfMetrics(layers, SetRules, SpecRules);
    LayersArePrecedence(rs, mesh, namespace, labels, SpecMetricProviders);
    LayersArePrecedence(rs, mesh, namespace, labels, SpecMetricEnabled);
    LayersArePrecedence(rs, mesh, namespace, labels, SpecRules);
    LayersArePrecedence(rs, mesh, namespace, labels, SpecLogging);
  }

  /** What the layers resolve to is, field by field, what the most specific resource says. */
  lemma ResolvedIsResolution(rs: seq<Resource>, mesh: string, namespace: string, labels: Labels)
    ensures IsResolution(rs, mesh, namespace, labels, Resolved(Layers(rs, mesh, namespace, labels)))
  {
    TracesAreResolved(rs, mesh, namespace, labels);
    MetricsAreResolved(rs, mesh, namespace, labels);
    var layers := Layers(rs, mesh, namespace, labels);
    var r := Resolved(layers);
    AnyTraces(layers);
    AnyMetrics(layers);
    LayersArePrecedence(rs, mesh, namespace, labels, HasTracing);
    LayersArePrecedence(rs, mesh, namespace, labels, HasMetrics);
    assert SetTo(r.providers, Last(AllTraces(layers), TraceProviders));
    assert SetTo(r.tags, Last(AllTraces(layers), TraceTags));
    assert SetTo(r.metricProviders, Last(AllMetrics(layers), MetricProviders));
    assert SetTo(r.metricRules, Last(AllMetrics(layers), SetRules));
    assert SetTo(r.logging, Last(layers, SetLogging)) && (r.loggingConfigured <==> Last(layers, SetLogging).Some?);
  }

  method ApplyMetrics(
      result: Effective, x: Metrics, ghost l: Option<seq<LogRule>>, ghost m: seq<Metrics>, ghost t: seq<Trace>)
    returns (r: Effective)
    requires result == Summary(l, m, t)
    ensures r == Summary(l, m + [x], t)
  {
    r := result.(metricsConfigured := true);
    if x.providers != [] {
      r := r.(metricProviders := x.providers);
    }
    if x.enabled.Some? {
      r := r.(enableMetrics := x.enabled);
    }
    if x.rules != [] {
      r := r.(metricRules := Present(x.rules));
    }
    LastSnoc(m, x, MetricProviders);
    LastSnoc(m, x, MetricEnabled);
    LastSnoc(m, x, SetRules);
  }

  method ApplyTrace(
      result: Effective, x: Trace, ghost l: Option<seq<LogRule>>, ghost m: seq<Metrics>, ghost t: seq<Trace>)
    returns (r: Effective)
    requires result == Summary(l, m, t)
    ensures r == Summary(l, m, t + [x])
  {
    r := result.(configured := true);
    if x.providers != [] {
      r := r.(providers := x.providers);
    }
    if x.tags != [] {
      r := r.(tags := x.tags);
    }
    if x.sampling.Some? {
      r := r.(sampling := x.sampling);
    }
    if x.disableReporting.Some? {
      r := r.(disableReporting := x.disableReporting);
    }
    LastSnoc(t, x, TraceProviders);
    LastSnoc(t, x, TraceTags);
    LastSnoc(t, x, Sampling);
    LastSnoc(t, x, Reporting);
  }

  method ApplyAllMetrics(
      result: Effective, xs: seq<Option<Metrics>>,
      ghost l: Option<seq<LogRule>>, ghost m: seq<Metrics>, ghost t: seq<Trace>)
    returns (r: Effective)
    requires result == Summary(l, m, t)
    ensures r == Summary(l, m + Present(xs), t)
  {
    r := result;
    ghost var seen := m;
    for n := 0 to |xs|
      invariant seen == m + Present(xs[..n]) && r == Summary(l, seen, t)
    {
      PresentSnoc(xs, n);
      if xs[n].Some? {
        r := ApplyMetrics(r, xs[n].value, l, seen, t);
        seen := seen + [xs[n].value];
      }
    }
    assert xs[..|xs|] == xs;
  }

  method ApplyAllTracing(
      result: Effective, xs: seq<Option<Trace>>,
      ghost l: Option<seq<LogRule>>, ghost m: seq<Metrics>, ghost t: seq<Trace>)
    returns (r: Effective)
    requires result == Summary(l, m, t)
    ensures r == Summary(l, m, t + Present(xs))
  {
    r := result;
    ghost var seen := t;
    for n := 0 to |xs|
      invariant seen == t + Present(xs[..n]) && r == Summary(l, m, seen)
    {
      PresentSnoc(xs, n);
      if xs[n].Some? {
        r := ApplyTrace(r, xs[n].value, l, m, seen);
        seen := seen + [xs[n].value];
      }
    }
    assert xs[..|xs|] == xs;
  }

  lemma ResolvedSnoc(layers: seq<Spec>, spec: Spec)
    ensures
      Resolved(layers + [spec]) ==
      Summary(if spec.logging != [] then Some(Present(spec.logging)) else Last(layers, SetLogging),
              AllMetrics(layers) + Present(spec.metrics), AllTraces(layers) + Present(spec.tracing))
  {
    assert (layers + [spec])[..|layers|] == layers;
  }

  /** One more layer: what was resolved from the layers so far becomes what the longer list resolves to. */
  method Apply(result: Effective, spec: Spec, ghost layers: seq<Spec>) returns (r: Effective)
    requires result == Resolved(layers)
    ensures r == Resolved(layers + [spec])
  {
    ghost var l := if spec.logging != [] then Some(Present(spec.logging)) else Last(layers, SetLogging);
    ghost var m, t := AllMetrics(layers), AllTraces(layers);
    r := result;
    if spec.logging != [] {
      r := r.(loggingConfigured := true, logging := Present(spec.logging));
    }
    r := ApplyAllMetrics(r, spec.metrics, l, m, t);
    r := ApplyAllTracing(r, spec.tracing, l, m + Present(spec.metrics), t);
    ResolvedSnoc(layers, spec);
  }

  method FirstNamespaceLevel(rs: seq<Resource>, namespace: string) returns (r: Option<Spec>)
    ensures FirstLevel(rs, namespace) == if r.Some? then [r.value] else []
  {
    for n := 0 to |rs|
      invariant FirstLevel(rs, namespace) == FirstLevel(rs[n..], namespace)
    {
      if AtLevel(rs[n], namespace) {
        return rs[n].spec;
      }
      assert rs[n..][1..] == rs[n + 1..];
    }
    return None;
  }

  method ApplyFirstLevel(result: Effective, rs: seq<Resource>, namespace: string, ghost layers: seq<Spec>)
    returns (r: Effective)
    requires result == Resolved(layers)
    ensures r == Resolved(layers + FirstLevel(rs, namespace))
  {
    r := result;
    var level := FirstNamespaceLevel(rs, namespace);
    if level.Some? {
      r := Apply(r, level.value, layers);
    } else {
      assert layers + FirstLevel(rs, namespace) == layers;
    }
  }

  lemma SelectedSnoc(rs: seq<Resource>, n: nat, namespace: string, labels: Labels, layers: seq<Spec>)
    requires n < |rs|
    ensures
      layers + Selected(rs[..n + 1], namespace, labels) ==
      layers + Selected(rs[..n], namespace, labels) + Chosen(rs[n], namespace, labels)
  {
    assert rs[..n + 1][..n] == rs[..n];
  }

  method ApplySelected(result: Effective, rs: seq<Resource>, namespace: string, labels: Labels, ghost layers: seq<Spec>)
    returns (r: Effective)
    requires result == Resolved(layers)
    ensures r == Resolved(layers + Selected(rs, namespace, labels))
  {
    r := result;
    ghost var seen := layers;
    for n := 0 to |rs|
      invariant seen == layers + Selected(rs[..n], namespace, labels) && r == Resolved(seen)
    {
      SelectedSnoc(rs, n, namespace, labels, layers);
      r := ApplyIfSelected(r, rs[n], namespace, labels, seen);
      seen := layers + Selected(rs[..n + 1], namespace, labels);
    }
    assert rs[..|rs|] == rs;
  }

  method ApplyIfSelected(
      result: Effective, resource: Resource, namespace: string, labels: Labels, ghost layers: seq<Spec>)
    returns (r: Effective)
    requires result == Resolved(layers)
    ensures r == Resolved(layers + Chosen(resource, namespace, labels))
  {
    r := result;
    assert layers + [] == layers;
    if resource.namespace == namespace && resource.spec.Some? && |resource.spec.value.selector| != 0 {
      var matched := MatchesLabels(resource.spec.value.selector, labels);
      if matched {
        r := Apply(r, resource.spec.value, layers);
      }
    }
  }

  method Resolve(resources: seq<Resource>, mesh: string, namespace: string, labels: Labels) returns (r: Effective)
    ensures r == Resolved(Layers(Sort(resources), mesh, namespace, labels))
    ensures IsResolution(Sort(resources), mesh, namespace, labels, r)
  {
    ResolvedIsResolution(Sort(resources), mesh, namespace, labels);
    var sorted := Sort(resources);
    r := NOTHING;
    r := ApplyFirstLevel(r, sorted, mesh, []);
    assert [] + FirstLevel(sorted, mesh) == FirstLevel(sorted, mesh);
    ghost var layers := FirstLevel(sorted, mesh);
    if namespace != mesh {
      r := ApplyFirstLevel(r, sorted, namespace, layers);
    } else {
      assert layers == layers + [];
    }
    layers := layers + if namespace != mesh then FirstLevel(sorted, namespace) else [];
    r := ApplySelected(r, sorted, namespace, labels, layers);
  }

  /** The order in which the resources are listed does not matter. */
  lemma ResolveIgnoresOrder(rs: seq<Resource>, rs': seq<Resource>, mesh: string, namespace: string, labels: Labels)
    requires multiset(rs) == multiset(rs') && NoClash(rs)
    ensures
      Resolved(Layers(Sort(rs), mesh, namespace, labels)) == Resolved(Layers(Sort(rs'), mesh, namespace, labels))
  {
    PermutedSortsSame(rs, rs');
  }

  /** Two resources that differ only in what they say: the one listed first decides. */
  lemma ClashDependsOnOrder(name: string, mesh: string)
    ensures
      var a := Resource(name, mesh, 0, Some(Spec(map[], [], [Some(Metrics([], Some(true), []))], [])));
      var b := Resource(name, mesh, 0, Some(Spec(map[], [], [Some(Metrics([], Some(false), []))], [])));
      && Resolved(Layers(Sort([a, b]), mesh, mesh, map[])).enableMetrics == Some(true)
      && Resolved(Layers(Sort([b, a]), mesh, mesh, map[])).enableMetrics == Some(false)
  {
    var x, y := Spec(map[], [], [Some(Metrics([], Some(true), []))], []),
                Spec(map[], [], [Some(Metrics([], Some(false), []))], []);
    FirstOfTwo(name, mesh, x, y);
    FirstOfTwo(name, mesh, y, x);
    EnabledByOne(true);
    EnabledByOne(false);
  }

  lemma EnabledByOne(b: bool)
    ensures Resolved([Spec(map[], [], [Some(Metrics([], Some(b), []))], [])]).enableMetrics == Some(b)
  {
    var m := Metrics([], Some(b), []);
    var x := Spec(map[], [], [Some(m)], []);
    assert [x][..0] == [] && x.metrics[..0] == [];
    assert Present(x.metrics) == [] + [m];
    assert AllMetrics([x]) == [] + Present(x.metrics);
    assert [m][..0] == [];
  }

  lemma FirstOfTwo(name: string, mesh: string, x: Spec, y: Spec)
    requires x.selector == y.selector == map[]
    ensures
      Layers(Sort([Resource(name, mesh, 0, Some(x)), Resource(name, mesh, 0, Some(y))]), mesh, mesh, map[]) == [x]
  {
    var a, b := Resource(name, mesh, 0, Some(x)), Resource(name, mesh, 0, Some(y));
    EarlierIsTotal(b, a);
    assert [a, b][..1] == [a] && Sort([a]) == [a];
    assert Sort([a, b]) == [a, b];
    assert Selected([a], mesh, map[]) == [];
    assert Selected([a, b], mesh, map[]) == [];
  }
}
