/** Filters of a Fetch: what they match, and the keys under which they can be found again. */
module KrtFilter {
  import opened Options
  import opened KrtTypes

  /** All index extractors, by the identity of the index. Identities are never reused. */
  type Extractors = (Uid, Obj) -> seq<string>

  datatype IndexFilter = IndexFilter(uid: Uid, key: string)

  /** A filter; each part is optional. keys == Some({}) is the set that matches nothing. */
  datatype Filter = Filter(
    keys: Option<set<Key>>,
    index: Option<IndexFilter>,
    namespace: Option<string>,
    selects: Option<map<string, string>>,
    selectsNonEmpty: Option<map<string, string>>,
    labels: Option<map<string, string>>,
    generic: Option<Obj -> bool>)

  /** One Fetch made by a transformation: the collection read and the filter used. */
  datatype Dependency = Dependency(id: Uid, filter: Filter)

  datatype IndexedType = UnknownIndex | IndexType | GetKeyType

  predicate SubMap(a: map<string, string>, b: map<string, string>) {
    forall k :: k in a ==> k in b && b[k] == a[k]
  }

  /** The checks that are always made, listing or not. */
  predicate MatchesRest(f: Filter, o: Obj) {
    && (f.selects.Some? ==> SubMap(o.selector, f.selects.value))
    && (f.namespace.Some? ==> o.namespace == f.namespace.value)
    && (f.selectsNonEmpty.Some? ==> o.selector != map[] && SubMap(o.selector, f.selectsNonEmpty.value))
    && (f.labels.Some? ==> SubMap(f.labels.value, o.labels))
    && (f.generic.Some? ==> f.generic.value(o))
  }

  /** The checks that a listing by key or by index has already made. */
  predicate MatchesLookup(x: Extractors, f: Filter, o: Obj) {
    && (f.keys.Some? ==> o.key in f.keys.value)
    && (f.index.Some? ==> f.index.value.key in x(f.index.value.uid, o))
  }

  predicate Matches(x: Extractors, f: Filter, o: Obj, forList: bool) {
    (forList || MatchesLookup(x, f, o)) && MatchesRest(f, o)
  }

  /** Part by part, what a filter asks of an object. */
  predicate Meets(x: Extractors, f: Filter, o: Obj) {
    && (match f.keys case None => true case Some(keys) => o.key in keys)
    && (match f.index case None => true case Some(index) => index.key in x(index.uid, o))
    && (match f.namespace case None => true case Some(namespace) => o.namespace == namespace)
    && (match f.labels
        case None => true
        case Some(labels) => forall l <- labels :: l in o.labels && o.labels[l] == labels[l])
    && (match f.selects
        case None => true
        case Some(labels) => forall l <- o.selector :: l in labels && labels[l] == o.selector[l])
    && (match f.selectsNonEmpty
        case None => true
        case Some(labels) =>
          (exists l :: l in o.selector) && forall l <- o.selector :: l in labels && labels[l] == o.selector[l])
    && (match f.generic case None => true case Some(accepts) => accepts(o))
  }

  lemma MatchesIff(x: Extractors, f: Filter, o: Obj)
    ensures Matches(x, f, o, false) <==> Meets(x, f, o)
  {
    if o.selector != map[] {
      assert exists l :: l in o.selector;
    }
  }

  /** The source panics on a filter by both a non-empty key set and an index. */
  predicate Legal(f: Filter) {
    !(f.keys.Some? && f.keys.value != {} && f.index.Some?)
  }

  /** Whether the filter can be entered in the reverse index. */
  predicate Indexed(f: Filter) {
    (f.keys.Some? && f.keys.value != {}) || f.index.Some?
  }

  /** A filter by an empty key set matches no object at all. */
  predicate MatchesNothing(f: Filter) {
    f.keys == Some({})
  }

  function ReverseKeys(f: Filter): set<string> {
    if f.keys.Some? && f.keys.value != {} then f.keys.value
    else if f.index.Some? then {f.index.value.key}
    else {}
  }

  function ReverseType(f: Filter): IndexedType {
    if f.keys.Some? && f.keys.value != {} then GetKeyType
    else if f.index.Some? then IndexType
    else UnknownIndex
  }

  function ReverseUid(f: Filter): Uid {
    if f.keys.Some? && f.keys.value != {} then 0
    else if f.index.Some? then f.index.value.uid
    else 0
  }

  /** The keys an object is found under through an extractor of the given type and index. */
  function Extract(x: Extractors, typ: IndexedType, uid: Uid, o: Obj): seq<string> {
    match typ
    case GetKeyType => [o.key]
    case IndexType => x(uid, o)
    case UnknownIndex => []
  }

  /** What a Fetch with this filter means: the matching part of the collection, nothing else. */
  function Select(x: Extractors, c: map<Key, Obj>, f: Filter): map<Key, Obj> {
    map k | k in c && Matches(x, f, c[k], false) :: c[k]
  }

  /** An object that matches an indexed filter shares a reverse key with it. */
  lemma MatchSharesReverseKey(x: Extractors, f: Filter, o: Obj) returns (k: string)
    requires Legal(f) && Indexed(f) && Matches(x, f, o, false)
    ensures k in ReverseKeys(f) && k in Extract(x, ReverseType(f), ReverseUid(f), o)
  {
    if f.keys.Some? && f.keys.value != {} {
      k := o.key;
    } else {
      k := f.index.value.key;
    }
  }

  /**
   * If a change of one collection changes what a filter selects, then an object that left, arrived
   * or was replaced matches the filter.
   */
  lemma SelectChangeIsMatched(x: Extractors, f: Filter, c: map<Key, Obj>, c': map<Key, Obj>) returns (o: Obj)
    requires Select(x, c, f) != Select(x, c', f)
    ensures Matches(x, f, o, false)
    ensures exists k :: Get(c, k) != Get(c', k) && (Get(c, k) == Some(o) || Get(c', k) == Some(o))
  {
    var s, s' := Select(x, c, f), Select(x, c', f);
    if forall k :: k in s ==> k in s' && s[k] == s'[k] {
      assert s.Keys != s'.Keys;
      var k :| k in s' && k !in s;
      o := c'[k];
      assert Get(c, k) != Get(c', k);
    } else {
      var k :| k in s && !(k in s' && s[k] == s'[k]);
      o := c[k];
      assert Get(c, k) != Get(c', k);
    }
  }
}
