/**
 * The search filter: a conjunction ("$and") of equality and strict range
 * conditions on metadata, how search builds it, and what it admits.
 */
module Filter {
  import opened Wrappers
  import opened Metadata

  /** One condition of the "$and" list: `{field: {"$eq"|"$gt"|"$lt": value}}`. */
  datatype Cond = Eq(field: string, value: Value) | Gt(field: string, bound: int) | Lt(field: string, bound: int)

  /** The "$and" list of a where-predicate. */
  type Where = seq<Cond>

  /**
   * Optional bounds on the creation time; `greaterThanValue` and
   * `lowerThanValue` both default to None.
   */
  datatype TimestampFilter = TimestampFilter(greaterThanValue: Option<int>, lowerThanValue: Option<int>)

  /** The semantics of one condition: the field is present and compares as stated (range conditions need an integer). */
  predicate CondHolds(c: Cond, m: Meta) {
    match c
    case Eq(f, v) => f in m && m[f] == v
    case Gt(f, b) => f in m && m[f].Int? && m[f].n > b
    case Lt(f, b) => f in m && m[f].Int? && m[f].n < b
  }

  /** The semantics of "$and": every condition of the list holds. */
  predicate Holds(w: Where, m: Meta) {
    if w == [] then true else CondHolds(w[0], m) && Holds(w[1..], m)
  }

  /** Conjunction distributes over concatenation of condition lists. */
  lemma {:induction false} HoldsConcat(a: Where, b: Where, m: Meta)
    ensures Holds(a + b, m) <==> Holds(a, m) && Holds(b, m)
  {
    if a == [] {
      assert a + b == b;
    } else {
      assert (a + b)[1..] == a[1..] + b;
      HoldsConcat(a[1..], b, m);
    }
  }

  /** A list holds exactly when each of its conditions holds. */
  lemma {:induction false} HoldsEvery(w: Where, m: Meta)
    ensures Holds(w, m) <==> forall i :: 0 <= i < |w| ==> CondHolds(w[i], m)
  {
    if w != [] {
      HoldsEvery(w[1..], m);
      assert forall i :: 1 <= i < |w| ==> w[i] == w[1..][i - 1];
    }
  }

  /** Python truthiness of an optional integer bound: None and 0 are both false. */
  predicate Truthy(bound: Option<int>) {
    bound.Some? && bound.value != 0
  }

  /** The lower bound search applies, if any. */
  predicate HasLower(tf: Option<TimestampFilter>) {
    tf.Some? && Truthy(tf.value.greaterThanValue)
  }

  /** The upper bound search applies, if any. */
  predicate HasUpper(tf: Option<TimestampFilter>) {
    tf.Some? && Truthy(tf.value.lowerThanValue)
  }

  /**
   * The where-predicate search builds: namespace equality, owner equality,
   * then `timestamp > greaterThanValue` and `timestamp < lowerThanValue`, each
   * only when the filter is given and that bound is truthy.
   */
  function WhereFor(namespace: Value, owner: Value, tf: Option<TimestampFilter>): (w: Where)
    ensures 2 <= |w| <= 4
    ensures w[0] == Eq("namespace", namespace) && w[1] == Eq("owner", owner)
  {
    var scoped := [Eq("namespace", namespace), Eq("owner", owner)];
    var lower := if HasLower(tf) then [Gt("timestamp", tf.value.greaterThanValue.value)] else [];
    var upper := if HasUpper(tf) then [Lt("timestamp", tf.value.lowerThanValue.value)] else [];
    scoped + lower + upper
  }

  /**
   * Shape of the built filter: its length counts the applied bounds, a `$gt`
   * condition is present exactly when the lower bound is applied and a `$lt`
   * exactly when the upper bound is, and the `$gt` comes first.
   */
  lemma WhereForShape(namespace: Value, owner: Value, tf: Option<TimestampFilter>)
    ensures var w := WhereFor(namespace, owner, tf);
      |w| == 2 + (if HasLower(tf) then 1 else 0) + (if HasUpper(tf) then 1 else 0)
      && ((exists i :: 0 <= i < |w| && w[i].Gt?) <==> HasLower(tf))
      && ((exists i :: 0 <= i < |w| && w[i].Lt?) <==> HasUpper(tf))
      && (HasLower(tf) ==> w[2] == Gt("timestamp", tf.value.greaterThanValue.value))
      && (HasUpper(tf) ==> w[|w| - 1] == Lt("timestamp", tf.value.lowerThanValue.value))
  {
    var w := WhereFor(namespace, owner, tf);
    if HasLower(tf) {
      assert w[2].Gt?;
    }
    if HasUpper(tf) {
      assert w[|w| - 1].Lt?;
    }
  }

  /** Zero bounds, absent bounds and no filter at all build the same two-condition filter. */
  lemma ZeroBoundsAreAbsent(namespace: Value, owner: Value)
    ensures WhereFor(namespace, owner, Some(TimestampFilter(Some(0), Some(0))))
         == WhereFor(namespace, owner, Some(TimestampFilter(None, None)))
         == WhereFor(namespace, owner, None)
         == [Eq("namespace", namespace), Eq("owner", owner)]
  {
  }

  /** The time window the filter keeps: strictly above each applied lower bound, strictly below each applied upper bound. */
  predicate Within(t: Value, tf: Option<TimestampFilter>) {
    (HasLower(tf) ==> t.Int? && t.n > tf.value.greaterThanValue.value)
    && (HasUpper(tf) ==> t.Int? && t.n < tf.value.lowerThanValue.value)
  }

  /** The metadata a search may return: in the requested namespace, of the requested owner, inside the window. */
  predicate Admits(m: Meta, namespace: Value, owner: Value, tf: Option<TimestampFilter>) {
    "namespace" in m && m["namespace"] == namespace
    && "owner" in m && m["owner"] == owner
    && Within(Get(m, "timestamp"), tf)
  }

  /** The built filter holds of a metadata mapping exactly when that mapping is admitted. */
  lemma WhereForMeaning(namespace: Value, owner: Value, tf: Option<TimestampFilter>, m: Meta)
    ensures Holds(WhereFor(namespace, owner, tf), m) <==> Admits(m, namespace, owner, tf)
  {
    var scoped := [Eq("namespace", namespace), Eq("owner", owner)];
    var lower := if HasLower(tf) then [Gt("timestamp", tf.value.greaterThanValue.value)] else [];
    var upper := if HasUpper(tf) then [Lt("timestamp", tf.value.lowerThanValue.value)] else [];
    HoldsConcat(scoped + lower, upper, m);
    HoldsConcat(scoped, lower, m);
    HoldsEvery(scoped, m);
    HoldsEvery(lower, m);
    HoldsEvery(upper, m);
  }

  /**
   * A lower bound of zero is dropped, so a fragment stamped before the epoch
   * still passes `TimestampFilter(greaterThanValue = 0)`.
   */
  lemma ZeroLowerBoundKeepsEarlierTimes(namespace: Value, owner: Value)
    ensures Holds(WhereFor(namespace, owner, Some(TimestampFilter(Some(0), None))),
                  map["namespace" := namespace, "owner" := owner, "timestamp" := Int(-5)])
  {
  }

  /** Fragments at 100, 200 and 300: bounds 150 and 250 keep only the one at 200. */
  lemma WindowKeepsMiddle(namespace: Value, owner: Value, t: int)
    requires t in {100, 200, 300}
    ensures var m := map["namespace" := namespace, "owner" := owner, "timestamp" := Int(t)];
      Holds(WhereFor(namespace, owner, Some(TimestampFilter(Some(150), Some(250)))), m) <==> t == 200
  {
    WhereForMeaning(namespace, owner, Some(TimestampFilter(Some(150), Some(250))),
                    map["namespace" := namespace, "owner" := owner, "timestamp" := Int(t)]);
  }
}
