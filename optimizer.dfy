/** The peephole optimizer of the flat IR: lexer tokens are translated one
    to one, then runs of adjacent pointer steps and of adjacent value steps
    are fused into one step each. */
module Optimizer {
  import opened Ints
  import opened Wrappers
  import opened FlatIr
  import opened IterUtils
  import Types

  /** Both tokens are pointer steps, or both are value steps. */
  predicate SameKind(a: ProgramToken, b: ProgramToken)
  {
    (a.ChangeAddr? && b.ChangeAddr?) || (a.ChangeValue? && b.ChangeValue?)
  }

  /** `try_fuse`: two steps of the same kind become one step by their sum;
      the i32 addition wraps on overflow. Every other pair is kept apart. */
  function TryFuse(a: ProgramToken, b: ProgramToken): (r: Option<ProgramToken>)
    ensures r.Some? <==> SameKind(a, b)
    ensures r.Some? ==> SameKind(r.value, a)
    ensures r.Some? ==> (r.value.delta - (a.delta + b.delta)) % U32_LIMIT == 0
    ensures r.Some? && -0x8000_0000 <= a.delta + b.delta < 0x8000_0000 ==> r.value.delta == a.delta + b.delta
  {
    match (a, b)
    case (ChangeAddr(x), ChangeAddr(y)) => Some(ChangeAddr(WrapI32(x + y)))
    case (ChangeValue(x), ChangeValue(y)) => Some(ChangeValue(WrapI32(x + y)))
    case _ => None
  }

  /** `remove_duplicates` */
  method RemoveDuplicates(tokens: seq<ProgramToken>) returns (r: seq<ProgramToken>)
    ensures r == FuseAll(tokens, TryFuse)
  {
    r := FuseToVec(tokens, TryFuse);
  }

  /** `optimize`: translate, then fuse. */
  method Optimize(tokens: seq<Types.ParseToken>) returns (r: seq<ProgramToken>)
    ensures r == FuseAll(LowerAll(tokens), TryFuse)
  {
    var program := MapTokens(tokens);
    assert program == LowerAll(tokens);
    r := RemoveDuplicates(program);
  }

  // ---------------------------------------------------------------------
  // No fusable pair is left behind.

  /** No two adjacent tokens are both pointer steps or both value steps. */
  predicate NoFusablePair(s: seq<ProgramToken>)
  {
    forall i :: 0 <= i < |s| - 1 ==> !SameKind(s[i], s[i + 1])
  }

  /** After fusion no two adjacent tokens could be fused again: every run of
      pointer steps and every run of value steps is a single token. */
  lemma {:induction false} FusedHasNoFusablePair(tokens: seq<ProgramToken>)
    ensures NoFusablePair(FuseAll(tokens, TryFuse))
  {
    if tokens != [] {
      var acc := FuseAll(tokens[..|tokens| - 1], TryFuse);
      FusedHasNoFusablePair(tokens[..|tokens| - 1]);
      StepKeepsNoFusablePair(acc, tokens[|tokens| - 1]);
    }
  }

  lemma StepKeepsNoFusablePair(acc: seq<ProgramToken>, item: ProgramToken)
    requires NoFusablePair(acc)
    ensures NoFusablePair(FuseStep(acc, item, TryFuse))
  {
    var r := FuseStep(acc, item, TryFuse);
    if acc != [] {
      var last := acc[|acc| - 1];
      if TryFuse(last, item).Some? {
        assert r == acc[..|acc| - 1] + [TryFuse(last, item).value];
        forall i | 0 <= i < |r| - 1
          ensures !SameKind(r[i], r[i + 1])
        {
          assert r[i] == acc[i];
          if i + 1 < |acc| - 1 {
            assert r[i + 1] == acc[i + 1];
          }
        }
      } else {
        assert r == acc + [item];
        forall i | 0 <= i < |r| - 1
          ensures !SameKind(r[i], r[i + 1])
        {
          assert r[i] == (acc + [item])[i];
        }
      }
    }
  }

  // ---------------------------------------------------------------------
  // The brackets and prints are kept exactly.

  predicate IsControl(t: ProgramToken)
  {
    t.LoopStart? || t.LoopEnd? || t.Print?
  }

  /** The bracket and print tokens of a sequence, in order. */
  function Controls(s: seq<ProgramToken>): (r: seq<ProgramToken>)
    ensures forall i :: 0 <= i < |r| ==> IsControl(r[i])
  {
    if s == [] then []
    else Controls(s[..|s| - 1]) + (if IsControl(s[|s| - 1]) then [s[|s| - 1]] else [])
  }

  lemma {:induction false} ControlsAppend(a: seq<ProgramToken>, b: seq<ProgramToken>)
    ensures Controls(a + b) == Controls(a) + Controls(b)
    decreases |b|
  {
    if b == [] {
      assert a + b == a;
    } else {
      assert (a + b)[..|a + b| - 1] == a + b[..|b| - 1];
      ControlsAppend(a, b[..|b| - 1]);
    }
  }

  /** Fusion keeps the subsequence of brackets and prints exactly. */
  lemma {:induction false} FusionKeepsControls(tokens: seq<ProgramToken>)
    ensures Controls(FuseAll(tokens, TryFuse)) == Controls(tokens)
  {
    if tokens != [] {
      var init := tokens[..|tokens| - 1];
      var item := tokens[|tokens| - 1];
      var acc := FuseAll(init, TryFuse);
      FusionKeepsControls(init);
      assert init + [item] == tokens;
      ControlsAppend(init, [item]);
      if acc != [] && TryFuse(acc[|acc| - 1], item).Some? {
        var last := acc[|acc| - 1];
        var front := acc[..|acc| - 1];
        var fused := TryFuse(last, item).value;
        assert front + [last] == acc;
        ControlsAppend(front, [last]);
        ControlsAppend(front, [fused]);
        StepHasNoControls(last);
        StepHasNoControls(fused);
        StepHasNoControls(item);
      } else {
        ControlsAppend(acc, [item]);
      }
    }
  }

  lemma StepHasNoControls(t: ProgramToken)
    requires t.ChangeAddr? || t.ChangeValue?
    ensures Controls([t]) == []
  {
    assert [t][..0] == [];
  }

  // ---------------------------------------------------------------------
  // The steps between two controls add up to the same amounts.

  /** The totals of the pointer steps and of the value steps in one stretch
      between controls, each added with i32 wrap-around. */
  datatype Totals = Totals(addr: i32, value: i32)

  /** Adds one token to a profile: a step adds to the totals of the current
      stretch, a control starts a new stretch. */
  function ProfileAdd(p: seq<Totals>, t: ProgramToken): seq<Totals>
    requires p != []
  {
    var cur := p[|p| - 1];
    match t
    case ChangeAddr(d) => p[..|p| - 1] + [Totals(WrapI32(cur.addr + d), cur.value)]
    case ChangeValue(d) => p[..|p| - 1] + [Totals(cur.addr, WrapI32(cur.value + d))]
    case _ => p + [Totals(0, 0)]
  }

  /** One pair of totals per stretch between controls: before the first
      control, between each two, and after the last. */
  function Profile(s: seq<ProgramToken>): (r: seq<Totals>)
    ensures |r| == |Controls(s)| + 1
  {
    if s == [] then [Totals(0, 0)] else ProfileAdd(Profile(s[..|s| - 1]), s[|s| - 1])
  }

  /** Adding two steps one at a time is the same as adding their fusion. */
  lemma ProfileAddFused(p: seq<Totals>, a: ProgramToken, b: ProgramToken)
    requires p != [] && SameKind(a, b)
    ensures ProfileAdd(ProfileAdd(p, a), b) == ProfileAdd(p, TryFuse(a, b).value)
  {
    var cur := p[|p| - 1];
    var front := p[..|p| - 1];
    var f := TryFuse(a, b).value;
    if a.ChangeAddr? {
      var mid := Totals(WrapI32(cur.addr + a.delta), cur.value);
      assert ProfileAdd(p, a) == front + [mid];
      assert (front + [mid])[..|p| - 1] == front;
      assert f == ChangeAddr(WrapI32(a.delta + b.delta));
      WrapAddAssoc(cur.addr, a.delta, b.delta);
    } else {
      var mid := Totals(cur.addr, WrapI32(cur.value + a.delta));
      assert ProfileAdd(p, a) == front + [mid];
      assert (front + [mid])[..|p| - 1] == front;
      assert f == ChangeValue(WrapI32(a.delta + b.delta));
      WrapAddAssoc(cur.value, a.delta, b.delta);
    }
  }

  /** Fusion keeps, stretch by stretch, the wrapped sum of the pointer steps
      and the wrapped sum of the value steps. */
  lemma {:induction false} FusionKeepsProfile(tokens: seq<ProgramToken>)
    ensures Profile(FuseAll(tokens, TryFuse)) == Profile(tokens)
  {
    if tokens != [] {
      var init := tokens[..|tokens| - 1];
      var item := tokens[|tokens| - 1];
      var acc := FuseAll(init, TryFuse);
      FusionKeepsProfile(init);
      if acc != [] && TryFuse(acc[|acc| - 1], item).Some? {
        var front := acc[..|acc| - 1];
        var fused := TryFuse(acc[|acc| - 1], item).value;
        assert (front + [fused])[..|front|] == front;
        assert acc[..|acc| - 1] == front;
        assert Profile(acc) == ProfileAdd(Profile(front), acc[|acc| - 1]);
        assert Profile(front + [fused]) == ProfileAdd(Profile(front), fused);
        ProfileAddFused(Profile(front), acc[|acc| - 1], item);
      } else {
        assert (acc + [item])[..|acc|] == acc;
      }
    }
  }

  // ---------------------------------------------------------------------
  // The two unit tests of the optimizer.

  /** The loop over `items + [x]` is the loop over `items` and one step. */
  lemma FuseAllSnoc(items: seq<ProgramToken>, x: ProgramToken)
    ensures FuseAll(items + [x], TryFuse) == FuseStep(FuseAll(items, TryFuse), x, TryFuse)
  {
    assert (items + [x])[..|items|] == items;
  }

  /** Alternating steps are left as they are. */
  lemma SingleOpsAreMaintained()
    ensures var before := [ChangeAddr(1), ChangeValue(1), ChangeAddr(1), ChangeValue(1)];
      FuseAll(before, TryFuse) == before
  {
    var a, v := ChangeAddr(1), ChangeValue(1);
    FuseAllSnoc([], a);
    assert [] + [a] == [a];
    FuseAllSnoc([a], v);
    assert [a] + [v] == [a, v];
    FuseAllSnoc([a, v], a);
    assert [a, v] + [a] == [a, v, a];
    FuseAllSnoc([a, v, a], v);
    assert [a, v, a] + [v] == [a, v, a, v];
  }

  /** Runs of equal steps collapse into one step by the run's sum. */
  lemma SameOpsAreMerged()
    ensures FuseAll([ChangeAddr(1), ChangeAddr(1), ChangeAddr(1), ChangeValue(1), ChangeValue(1)], TryFuse)
         == [ChangeAddr(3), ChangeValue(2)]
  {
    var a, v := ChangeAddr(1), ChangeValue(1);
    ThreePointerSteps();
    FuseAllSnoc([a, a, a], v);
    assert [a, a, a] + [v] == [a, a, a, v];
    assert FuseAll([a, a, a, v], TryFuse) == [ChangeAddr(3), v];
    FuseAllSnoc([a, a, a, v], v);
    assert [a, a, a, v] + [v] == [a, a, a, v, v];
    assert TryFuse(v, v) == Some(ChangeValue(2));
  }

  lemma ThreePointerSteps()
    ensures FuseAll([ChangeAddr(1), ChangeAddr(1), ChangeAddr(1)], TryFuse) == [ChangeAddr(3)]
  {
    var a := ChangeAddr(1);
    FuseAllSnoc([], a);
    assert [] + [a] == [a];
    FuseAllSnoc([a], a);
    assert [a] + [a] == [a, a];
    assert TryFuse(a, a) == Some(ChangeAddr(2));
    assert FuseAll([a, a], TryFuse) == [ChangeAddr(2)];
    FuseAllSnoc([a, a], a);
    assert [a, a] + [a] == [a, a, a];
    assert TryFuse(ChangeAddr(2), a) == Some(ChangeAddr(3));
  }
}
