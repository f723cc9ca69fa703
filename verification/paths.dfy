/** The path resolver: `extract_nested_value` walks a chain of keys through
    nested dictionaries and lists and yields `None` (here `JNull`) as soon as
    a step is impossible, never raising. */
module Paths {
  import opened Results
  import opened Json

  /** One step of the walk: a string key into a dictionary that holds it, or
      an in-range, non-negative index into a list. Everything else fails. */
  function Step(cur: Value, k: Key): (r: Option<Value>)
    ensures r.Some? <==>
              || (k.KStr? && cur.JObj? && k.name in cur.fields)
              || (k.KInt? && cur.JList? && 0 <= k.index < |cur.items|)
    ensures r.Some? && k.KStr? ==> r.value == cur.fields[k.name]
    ensures r.Some? && k.KInt? ==> r.value == cur.items[k.index]
  {
    match (k, cur)
    case (KStr(name), JObj(fields)) =>
      if name in fields then Some(fields[name]) else None
    case (KInt(i), JList(items)) =>
      if 0 <= i < |items| then Some(items[i]) else None
    case _ => None
  }

  /** Reference definition of the walk: take the first step, then resolve the
      rest of the chain from where it led; a failed step ends in `JNull`. */
  function Extract(obj: Value, keys: Path): Value
    decreases |keys|
  {
    if |keys| == 0 then obj
    else
      match Step(obj, keys[0])
      case None => JNull
      case Some(next) => Extract(next, keys[1..])
  }

  /** The loop of `extract_nested_value`, branch for branch, with its early
      returns; it computes exactly the reference walk. */
  method ExtractNestedValue(obj: Value, keys: Path) returns (r: Value)
    ensures r == Extract(obj, keys)
    ensures |keys| == 0 ==> r == obj
  {
    var cur := obj;
    var i := 0;
    while i < |keys|
      invariant 0 <= i <= |keys|
      invariant Extract(cur, keys[i..]) == Extract(obj, keys)
    {
      assert keys[i..][1..] == keys[i + 1..];
      match (keys[i], cur) {
        case (KStr(k), JObj(fields)) =>
          if k in fields {
            cur := fields[k];
          } else {
            return JNull;
          }
        case (KInt(k), JList(items)) =>
          if 0 <= k < |items| {
            cur := items[k];
          } else {
            return JNull;
          }
        case _ =>
          return JNull;
      }
      i := i + 1;
    }
    assert keys[i..] == [];
    return cur;
  }

  lemma ExtractEmptyPath(obj: Value)
    ensures Extract(obj, []) == obj
  {
  }

  /** `JNull` absorbs every further key. */
  lemma ExtractFromNull(keys: Path)
    ensures Extract(JNull, keys) == JNull
  {
  }

  /** A scalar or null has no entries: any non-empty chain fails on it. */
  lemma ExtractFromScalar(obj: Value, keys: Path)
    requires !IsContainer(obj) && |keys| > 0
    ensures Extract(obj, keys) == JNull
  {
  }

  /** Path composition: resolving `p + q` is resolving `q` from wherever `p`
      led, including the case where `p` already failed. */
  lemma {:induction false} ExtractAppend(obj: Value, p: Path, q: Path)
    ensures Extract(obj, p + q) == Extract(Extract(obj, p), q)
    decreases |p|
  {
    if |p| == 0 {
      assert p + q == q;
    } else {
      assert (p + q)[0] == p[0];
      assert (p + q)[1..] == p[1..] + q;
      match Step(obj, p[0])
      case None =>
        ExtractFromNull(q);
      case Some(next) =>
        ExtractAppend(next, p[1..], q);
    }
  }

  /** The walk read left to right, as the source's loop does it: one more key
      either steps from the current value or ends the walk with `JNull`. */
  lemma ExtractSnoc(obj: Value, p: Path, k: Key)
    ensures Extract(obj, p + [k]) ==
              match Step(Extract(obj, p), k)
              case None => JNull
              case Some(next) => next
  {
    ExtractAppend(obj, p, [k]);
  }

  /** Once a step is impossible the whole walk yields `JNull`, whatever keys
      follow: a missing dictionary key, a bad index, a key of the wrong kind
      or any key applied to a scalar. */
  lemma ExtractStopsAtFailedStep(obj: Value, p: Path, k: Key, q: Path)
    requires Step(Extract(obj, p), k).None?
    ensures Extract(obj, p + [k] + q) == JNull
  {
    ExtractAppend(obj, p + [k], q);
    ExtractSnoc(obj, p, k);
    ExtractFromNull(q);
  }

  /** Negative indices never wrap around to the end of a list. */
  lemma ExtractNegativeIndex(obj: Value, p: Path, i: int, q: Path)
    requires i < 0
    ensures Extract(obj, p + [KInt(i)] + q) == JNull
  {
    ExtractStopsAtFailedStep(obj, p, KInt(i), q);
  }

  /** An index at or past the end of the list reached by `p` fails. */
  lemma ExtractIndexPastEnd(obj: Value, p: Path, i: int, q: Path)
    requires Extract(obj, p).JList? && i >= |Extract(obj, p).items|
    ensures Extract(obj, p + [KInt(i)] + q) == JNull
  {
    ExtractStopsAtFailedStep(obj, p, KInt(i), q);
  }

  /** A string key on a list, or an index on a dictionary, fails. */
  lemma ExtractKindMismatch(obj: Value, p: Path, k: Key, q: Path)
    requires (k.KStr? && !Extract(obj, p).JObj?) || (k.KInt? && !Extract(obj, p).JList?)
    ensures Extract(obj, p + [k] + q) == JNull
  {
    ExtractStopsAtFailedStep(obj, p, k, q);
  }

  /** A key stored with value null and a key that is absent are
      indistinguishable through the resolver. */
  lemma ExtractStoredNullIsMissing(fields: map<string, Value>, name: string, rest: Path)
    ensures Extract(JObj(fields[name := JNull]), [KStr(name)] + rest)
         == Extract(JObj(fields - {name}), [KStr(name)] + rest)
  {
  }
}
