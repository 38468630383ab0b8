/** Optional values and results that stand for the source's `undefined` and for thrown errors. */
module Wrappers {
  datatype Option<+T> = None | Some(value: T)

  datatype Result<+T> = Ok(value: T) | Err(error: string)

  /** Maps a list with a function that may throw: the first failure wins. */
  function Traverse<A, B>(f: A -> Result<B>, items: seq<A>): Result<seq<B>> {
    if items == [] then Ok([])
    else match f(items[0])
      case Err(e) => Err(e)
      case Ok(first) =>
        match Traverse(f, items[1..])
        case Err(e) => Err(e)
        case Ok(rest) => Ok([first] + rest)
  }

  lemma {:induction false} TraverseMaps<A, B>(f: A -> Result<B>, items: seq<A>)
    ensures Traverse(f, items).Ok? <==> forall i :: 0 <= i < |items| ==> f(items[i]).Ok?
    ensures Traverse(f, items).Ok? ==>
              && |Traverse(f, items).value| == |items|
              && forall i :: 0 <= i < |items| ==> f(items[i]) == Ok(Traverse(f, items).value[i])
  {
    if items != [] {
      var rest := items[1..];
      TraverseMaps(f, rest);
      assert forall i :: 0 <= i < |rest| ==> rest[i] == items[i + 1];
      if Traverse(f, items).Ok? {
        forall i | 0 <= i < |items| ensures f(items[i]) == Ok(Traverse(f, items).value[i]) {
          if i > 0 { assert items[i] == rest[i - 1]; }
        }
      } else if f(items[0]).Ok? {
        var k :| 0 <= k < |rest| && f(rest[k]).Err?;
        assert f(items[k + 1]).Err?;
      }
    }
  }
}
