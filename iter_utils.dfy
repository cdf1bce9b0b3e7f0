/** `fuse_to_vec`: a left-to-right pass that either pushes each item or
    replaces the last pushed item by its fusion with the new one. */
module IterUtils {
  import opened Wrappers

  /** One iteration of the loop: the first item is pushed; later items are
      fused into the last element when the fuser allows it, pushed
      otherwise. */
  function FuseStep<T>(acc: seq<T>, item: T, tryFuse: (T, T) -> Option<T>): seq<T>
  {
    if |acc| == 0 then [item]
    else
      match tryFuse(acc[|acc| - 1], item)
      case Some(fused) => acc[..|acc| - 1] + [fused]
      case None => acc + [item]
  }

  /** The result of the loop over `items`. */
  function FuseAll<T>(items: seq<T>, tryFuse: (T, T) -> Option<T>): seq<T>
  {
    if items == [] then [] else FuseStep(FuseAll(items[..|items| - 1], tryFuse), items[|items| - 1], tryFuse)
  }

  /** `fuse_to_vec` */
  method FuseToVec<T>(items: seq<T>, tryFuse: (T, T) -> Option<T>) returns (fusedItems: seq<T>)
    ensures fusedItems == FuseAll(items, tryFuse)
  {
    fusedItems := [];
    for i := 0 to |items|
      invariant fusedItems == FuseAll(items[..i], tryFuse)
    {
      var item := items[i];
      assert items[..i + 1][..i] == items[..i];
      if |fusedItems| == 0 {
        fusedItems := fusedItems + [item];
      } else {
        match tryFuse(fusedItems[|fusedItems| - 1], item) {
          case Some(fused) =>
            fusedItems := fusedItems[..|fusedItems| - 1];
            fusedItems := fusedItems + [fused];
          case None =>
            fusedItems := fusedItems + [item];
        }
      }
    }
    assert items[..|items|] == items;
  }

  /** The output is empty exactly when the input is, and never longer than
      the input. */
  lemma {:induction false} FuseLength<T>(items: seq<T>, tryFuse: (T, T) -> Option<T>)
    ensures |FuseAll(items, tryFuse)| <= |items|
    ensures FuseAll(items, tryFuse) == [] <==> items == []
  {
    if items != [] {
      FuseLength(items[..|items| - 1], tryFuse);
    }
  }

  /** A fuser that never fuses leaves the items as they are. */
  lemma {:induction false} FuseNeverIdentity<T>(items: seq<T>, tryFuse: (T, T) -> Option<T>)
    requires forall a, b :: tryFuse(a, b) == None
    ensures FuseAll(items, tryFuse) == items
  {
    if items != [] {
      var init := items[..|items| - 1];
      FuseNeverIdentity(init, tryFuse);
      assert init + [items[|items| - 1]] == items;
    }
  }

  /** A step only touches the end: every element but the last is kept, and
      the last is either kept too (the new item is pushed after it) or
      replaced by the fusion of it with the new item. */
  lemma FuseStepKeepsFront<T>(acc: seq<T>, item: T, tryFuse: (T, T) -> Option<T>)
    requires acc != []
    ensures var r := FuseStep(acc, item, tryFuse);
      && r[..|acc| - 1] == acc[..|acc| - 1]
      && ((|r| == |acc| + 1 && r[|acc| - 1] == acc[|acc| - 1] && r[|acc|] == item)
          || (|r| == |acc| && tryFuse(acc[|acc| - 1], item) == Some(r[|acc| - 1])))
  {
    var r := FuseStep(acc, item, tryFuse);
    if tryFuse(acc[|acc| - 1], item).None? {
      assert r == acc + [item];
    }
  }

  /** Once the pass has moved on, an element that is not the last one is
      final: the output for `items[..i]` without its last element is a
      prefix of the output for all of `items`. */
  lemma {:induction false} FuseSettled<T>(items: seq<T>, i: nat, tryFuse: (T, T) -> Option<T>)
    requires 0 < i <= |items|
    ensures var a := FuseAll(items[..i], tryFuse);
      |a| > 0 && a[..|a| - 1] <= FuseAll(items, tryFuse)
    decreases |items| - i
  {
    FuseLength(items[..i], tryFuse);
    var a := FuseAll(items[..i], tryFuse);
    if i == |items| {
      assert items[..i] == items;
    } else {
      FuseSettled(items, i + 1, tryFuse);
      var b := FuseAll(items[..i + 1], tryFuse);
      assert items[..i + 1][..i] == items[..i];
      FuseStepKeepsFront(a, items[i], tryFuse);
      assert b[..|a| - 1] == a[..|a| - 1];
      FuseLength(items[..i + 1], tryFuse);
      assert a[..|a| - 1] <= b[..|b| - 1];
    }
  }

  /** The last output element is the last item, or the fuser's result for
      the last element of the output before it and the last item. */
  lemma FuseLast<T>(items: seq<T>, tryFuse: (T, T) -> Option<T>)
    requires items != []
    ensures var r := FuseAll(items, tryFuse);
      var a := FuseAll(items[..|items| - 1], tryFuse);
      |r| > 0 &&
      (r[|r| - 1] == items[|items| - 1] || (a != [] && tryFuse(a[|a| - 1], items[|items| - 1]) == Some(r[|r| - 1])))
  {
    var a := FuseAll(items[..|items| - 1], tryFuse);
    if a != [] {
      FuseStepKeepsFront(a, items[|items| - 1], tryFuse);
    }
  }
}
