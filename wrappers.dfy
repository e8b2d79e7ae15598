/** Option and Result values, and the exceptions the scraper can raise. */
module Wrappers {

  datatype Option<+T> = None | Some(value: T)

  /** One constructor per kind of exception that the modelled code raises. */
  datatype Error =
    /** The explicit raise when the first category page answers with a status of 400 or more. */
    | StartPageOutOfRange
    /** A document lookup found nothing and its result was then used (TypeError / AttributeError). */
    | MissingElement(what: string)
    /** `tag["name"]` on an element without that attribute (KeyError). */
    | MissingAttribute(name: string)
    /** `stats["key"]` on a stats dictionary without that key (KeyError). */
    | MissingKey(key: string)
    /** `int(text)` on a text that is not an integer (ValueError). */
    | NotAnInteger(text: string)
    /** A local variable read before any assignment to it (UnboundLocalError). */
    | UnboundName

  datatype Result<+T> = Ok(value: T) | Err(error: Error)

  /** A list comprehension whose items may raise: every value, in order, or
      the error of the first item that raises. */
  function Collect<T>(rs: seq<Result<T>>): Result<seq<T>> {
    if rs == [] then Ok([])
    else match rs[0]
      case Err(e) => Err(e)
      case Ok(v) =>
        match Collect(rs[1..])
        case Err(e) => Err(e)
        case Ok(vs) => Ok([v] + vs)
  }

  /** The comprehension succeeds exactly when every item does, and then has
      one value per item; otherwise it fails with the error of the first
      item that fails. */
  lemma {:induction false} CollectSpec<T>(rs: seq<Result<T>>)
    ensures Collect(rs).Ok? <==> forall k :: 0 <= k < |rs| ==> rs[k].Ok?
    ensures Collect(rs).Ok? ==>
              |Collect(rs).value| == |rs| && forall k :: 0 <= k < |rs| ==> rs[k] == Ok(Collect(rs).value[k])
    ensures Collect(rs).Err? ==>
              exists j :: 0 <= j < |rs| && rs[j] == Err(Collect(rs).error) && forall k :: 0 <= k < j ==> rs[k].Ok?
  {
    if rs != [] {
      var t := rs[1..];
      CollectSpec(t);
      assert forall k :: 1 <= k < |rs| ==> rs[k] == t[k - 1];
      if rs[0].Ok? && Collect(t).Err? {
        var j :| 0 <= j < |t| && t[j] == Err(Collect(t).error) && forall k :: 0 <= k < j ==> t[k].Ok?;
        assert rs[j + 1] == t[j];
      }
      if rs[0].Err? {
        assert rs[0] == Err(Collect(rs).error);
      }
    }
  }

  /** A loop that extends one list with the items of each result in turn:
      all the items, in order, or the error of the first result that fails. */
  function Join<T>(rs: seq<Result<seq<T>>>): Result<seq<T>> {
    if rs == [] then Ok([])
    else
      var n := |rs| - 1;
      match Join(rs[..n])
      case Err(e) => Err(e)
      case Ok(xs) =>
        match rs[n]
        case Err(e) => Err(e)
        case Ok(ys) => Ok(xs + ys)
  }

  /** Once a prefix of the results fails, the whole join fails the same way. */
  lemma {:induction false} JoinErrPrefix<T>(rs: seq<Result<seq<T>>>, n: nat)
    requires n <= |rs| && Join(rs[..n]).Err?
    ensures Join(rs) == Join(rs[..n])
    decreases |rs| - n
  {
    if n < |rs| {
      assert rs[..n + 1][..n] == rs[..n];
      JoinErrPrefix(rs, n + 1);
    } else {
      assert rs[..n] == rs;
    }
  }

  /** The join succeeds exactly when every result does; otherwise it fails
      with the error of the first result that fails. */
  lemma {:induction false} JoinSpec<T>(rs: seq<Result<seq<T>>>)
    ensures Join(rs).Ok? <==> forall k :: 0 <= k < |rs| ==> rs[k].Ok?
    ensures Join(rs).Err? ==>
              exists j :: 0 <= j < |rs| && rs[j] == Err(Join(rs).error) && forall k :: 0 <= k < j ==> rs[k].Ok?
  {
    if rs != [] {
      var n := |rs| - 1;
      var p := rs[..n];
      JoinSpec(p);
      assert forall k :: 0 <= k < n ==> p[k] == rs[k];
      if Join(p).Err? {
        var j :| 0 <= j < |p| && p[j] == Err(Join(p).error) && forall k :: 0 <= k < j ==> p[k].Ok?;
        assert rs[j] == p[j];
      } else if rs[n].Err? {
        assert rs[n] == Err(Join(rs).error);
      }
    }
  }

  /** The number of items the successful results hold together. */
  function ItemCount<T>(rs: seq<Result<seq<T>>>): nat {
    if rs == [] then 0
    else ItemCount(rs[..|rs| - 1]) + match rs[|rs| - 1] case Ok(ys) => |ys| case Err(_) => 0
  }

  /** Where the items of result `k` start in the join: after the items of
      the results before it. */
  function Offset<T>(rs: seq<Result<seq<T>>>, k: nat): nat
    requires k <= |rs|
  {
    ItemCount(rs[..k])
  }

  /** A successful join holds the items of every result, result after
      result: the items of result `k` follow those of the results before it. */
  lemma {:induction false} JoinValue<T>(rs: seq<Result<seq<T>>>)
    ensures Join(rs).Ok? ==>
              |Join(rs).value| == ItemCount(rs) &&
              forall k {:trigger rs[k]} :: 0 <= k < |rs| ==>
                rs[k].Ok? && Offset(rs, k) + |rs[k].value| == Offset(rs, k + 1) <= ItemCount(rs) &&
                Join(rs).value[Offset(rs, k)..Offset(rs, k + 1)] == rs[k].value
  {
    if Join(rs).Ok? {
      JoinLength(rs);
      forall k {:trigger rs[k]} | 0 <= k < |rs|
        ensures rs[k].Ok? && Offset(rs, k) + |rs[k].value| == Offset(rs, k + 1) <= ItemCount(rs)
        ensures Join(rs).value[Offset(rs, k)..Offset(rs, k + 1)] == rs[k].value
      {
        JoinValueAt(rs, k);
      }
    }
  }

  lemma {:induction false} JoinLength<T>(rs: seq<Result<seq<T>>>)
    requires Join(rs).Ok?
    ensures |Join(rs).value| == ItemCount(rs)
  {
    if rs != [] {
      JoinLength(rs[..|rs| - 1]);
    }
  }

  lemma {:induction false} JoinValueAt<T>(rs: seq<Result<seq<T>>>, k: nat)
    requires Join(rs).Ok? && k < |rs|
    ensures rs[k].Ok? && Offset(rs, k) + |rs[k].value| == Offset(rs, k + 1) <= ItemCount(rs) == |Join(rs).value|
    ensures Join(rs).value[Offset(rs, k)..Offset(rs, k + 1)] == rs[k].value
    decreases |rs|
  {
    var n := |rs| - 1;
    var p := rs[..n];
    JoinLength(rs);
    JoinLength(p);
    var xs, ys := Join(p).value, rs[n].value;
    assert Join(rs).value == xs + ys;
    assert rs[..n + 1] == rs;
    if k < n {
      JoinValueAt(p, k);
      JoinValueBefore(rs, p, k);
      OffsetMonotone(p, k + 1);
      assert (xs + ys)[Offset(p, k)..Offset(p, k + 1)] == xs[Offset(p, k)..Offset(p, k + 1)];
    } else {
      assert (xs + ys)[|xs|..|xs| + |ys|] == ys;
    }
  }

  lemma {:induction false} OffsetMonotone<T>(rs: seq<Result<seq<T>>>, k: nat)
    requires k <= |rs|
    ensures Offset(rs, k) <= ItemCount(rs)
    decreases |rs|
  {
    if k < |rs| {
      var p := rs[..|rs| - 1];
      assert p[..k] == rs[..k];
      OffsetMonotone(p, k);
    } else {
      assert rs[..k] == rs;
    }
  }

  lemma {:induction false} JoinValueBefore<T>(rs: seq<Result<seq<T>>>, p: seq<Result<seq<T>>>, k: nat)
    requires |rs| > 0 && p == rs[..|rs| - 1] && k < |p|
    ensures Offset(rs, k) == Offset(p, k) && Offset(rs, k + 1) == Offset(p, k + 1) && rs[k] == p[k]
  {
    assert rs[..k] == p[..k] && rs[..k + 1] == p[..k + 1];
  }
}
