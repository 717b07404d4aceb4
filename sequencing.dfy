/** The shape shared by every loop of the core that appends what each step finds
    and gives up at the first failing step: `Sequence` runs the steps' results in
    order. Its lemmas say what it yields: success exactly when every step
    succeeds, the concatenation of the steps' findings in order, and otherwise
    the error of the first failing step. */
module Sequencing {
  import opened Wrappers

  /** What a step contributes: its findings if it succeeded, nothing otherwise. */
  function Found<T, E>(r: Result<seq<T>, E>): seq<T> {
    if r.Ok? then r.value else []
  }

  /** The steps in order: stops at the first failure, otherwise appends findings. */
  function Sequence<T, E>(rs: seq<Result<seq<T>, E>>): Result<seq<T>, E> {
    if rs == [] then Ok([])
    else if rs[0].Err? then Err(rs[0].error)
    else
      var rest := Sequence(rs[1..]);
      if rest.Err? then rest else Ok(rs[0].value + rest.value)
  }

  /** Everything the steps find, concatenated in step order. */
  function JoinFound<T, E>(rs: seq<Result<seq<T>, E>>): seq<T> {
    if rs == [] then [] else Found(rs[0]) + JoinFound(rs[1..])
  }

  /** The number of findings of all steps together. */
  function CountFound<T, E>(rs: seq<Result<seq<T>, E>>): nat {
    if rs == [] then 0 else |Found(rs[0])| + CountFound(rs[1..])
  }

  predicate AllOk<T, E>(rs: seq<Result<seq<T>, E>>) {
    forall i | 0 <= i < |rs| :: rs[i].Ok?
  }

  /** Step `i` is the first step that fails. */
  predicate FirstError<T, E>(rs: seq<Result<seq<T>, E>>, i: int) {
    0 <= i < |rs| && rs[i].Err? && forall j | 0 <= j < i :: rs[j].Ok?
  }

  lemma {:induction false} SequenceOk<T, E>(rs: seq<Result<seq<T>, E>>)
    ensures Sequence(rs).Ok? <==> AllOk(rs)
    ensures Sequence(rs).Ok? ==> Sequence(rs).value == JoinFound(rs)
  {
    if rs != [] {
      SequenceOk(rs[1..]);
      assert AllOk(rs) <==> rs[0].Ok? && AllOk(rs[1..]) by {
        if rs[0].Ok? && AllOk(rs[1..]) {
          forall i | 0 <= i < |rs| ensures rs[i].Ok? {
            if i > 0 { assert rs[i] == rs[1..][i - 1]; }
          }
        }
      }
    }
  }

  lemma {:induction false} SequenceErr<T, E>(rs: seq<Result<seq<T>, E>>)
    ensures Sequence(rs).Err? <==> exists i :: FirstError(rs, i)
    ensures forall i | FirstError(rs, i) :: Sequence(rs) == Err(rs[i].error)
  {
    if rs != [] {
      SequenceErr(rs[1..]);
      forall i | FirstError(rs, i) ensures Sequence(rs) == Err(rs[i].error) {
        if i > 0 {
          assert FirstError(rs[1..], i - 1) by {
            forall j | 0 <= j < i - 1 ensures rs[1..][j].Ok? { assert rs[j + 1].Ok?; }
          }
        }
      }
      if Sequence(rs).Err? && rs[0].Ok? {
        var k :| FirstError(rs[1..], k);
        assert FirstError(rs, k + 1) by {
          forall j | 0 <= j < k + 1 ensures rs[j].Ok? {
            if j > 0 { assert rs[j] == rs[1..][j - 1]; }
          }
        }
      }
      if rs[0].Err? {
        assert FirstError(rs, 0);
      }
    }
  }

  /** Appending one more step: the loop step of every `ret = append(ret, ...)` loop. */
  lemma {:induction false} SequenceSnoc<T, E>(rs: seq<Result<seq<T>, E>>, r: Result<seq<T>, E>)
    ensures Sequence(rs + [r]) ==
              if Sequence(rs).Err? then Sequence(rs)
              else if r.Err? then Err(r.error)
              else Ok(Sequence(rs).value + r.value)
  {
    if rs == [] {
      assert rs + [r] == [r];
      assert [r][1..] == [];
      if r.Ok? {
        assert Sequence([r][1..]) == Ok([]);
        assert r.value + [] == r.value && [] + r.value == r.value;
      }
    } else {
      assert (rs + [r])[0] == rs[0];
      assert (rs + [r])[1..] == rs[1..] + [r];
      SequenceSnoc(rs[1..], r);
      if rs[0].Ok? && Sequence(rs[1..]).Ok? && r.Ok? {
        assert Sequence(rs).value == rs[0].value + Sequence(rs[1..]).value;
        assert Sequence(rs + [r]).value == rs[0].value + (Sequence(rs[1..]).value + r.value);
        assert rs[0].value + (Sequence(rs[1..]).value + r.value) == (rs[0].value + Sequence(rs[1..]).value) + r.value;
      }
    }
  }

  /** Once a prefix of the steps has failed, the later steps do not matter. */
  lemma {:induction false} SequenceAppend<T, E>(rs: seq<Result<seq<T>, E>>, qs: seq<Result<seq<T>, E>>)
    ensures Sequence(rs + qs) ==
              if Sequence(rs).Err? then Sequence(rs)
              else if Sequence(qs).Err? then Sequence(qs)
              else Ok(Sequence(rs).value + Sequence(qs).value)
  {
    if rs == [] {
      assert rs + qs == qs;
      if Sequence(qs).Ok? { assert [] + Sequence(qs).value == Sequence(qs).value; }
    } else {
      assert (rs + qs)[0] == rs[0];
      assert (rs + qs)[1..] == rs[1..] + qs;
      SequenceAppend(rs[1..], qs);
      if rs[0].Ok? && Sequence(rs[1..]).Ok? && Sequence(qs).Ok? {
        assert Sequence(rs).value == rs[0].value + Sequence(rs[1..]).value;
        assert Sequence(rs + qs).value == rs[0].value + (Sequence(rs[1..]).value + Sequence(qs).value);
        assert rs[0].value + (Sequence(rs[1..]).value + Sequence(qs).value)
            == (rs[0].value + Sequence(rs[1..]).value) + Sequence(qs).value;
      }
    }
  }

  /** Steps that each find exactly one item yield those items, in order. */
  lemma {:induction false} SequenceSingletons<T, E>(rs: seq<Result<seq<T>, E>>, xs: seq<T>)
    requires |rs| == |xs|
    requires forall i | 0 <= i < |rs| :: rs[i] == Ok([xs[i]])
    ensures Sequence(rs) == Ok(xs)
  {
    if rs != [] {
      SequenceSingletons(rs[1..], xs[1..]);
      assert xs == [xs[0]] + xs[1..];
    }
  }

  lemma {:induction false} JoinFoundLength<T, E>(rs: seq<Result<seq<T>, E>>)
    ensures |JoinFound(rs)| == CountFound(rs)
  {
    if rs != [] {
      JoinFoundLength(rs[1..]);
    }
  }

  /** The loop exit of `if err != nil { return nil, err }` at step `i`. */
  lemma SequenceStopsAt<T, E>(rs: seq<Result<seq<T>, E>>, i: nat)
    requires i < |rs| && Sequence(rs[..i]).Ok? && rs[i].Err?
    ensures Sequence(rs) == Err(rs[i].error)
  {
    SequenceOk(rs[..i]);
    assert forall j | 0 <= j < i :: rs[..i][j] == rs[j];
    assert FirstError(rs, i);
    SequenceErr(rs);
  }

  /** A property every step's findings have is had by everything found. */
  lemma {:induction false} JoinFoundAll<T, E>(rs: seq<Result<seq<T>, E>>, p: T -> bool)
    requires forall i, x | 0 <= i < |rs| && x in Found(rs[i]) :: p(x)
    ensures forall x | x in JoinFound(rs) :: p(x)
  {
    if rs != [] {
      assert forall i, x | 0 <= i < |rs[1..]| && x in Found(rs[1..][i]) :: p(x) by {
        forall i, x | 0 <= i < |rs[1..]| && x in Found(rs[1..][i]) ensures p(x) {
          assert rs[1..][i] == rs[i + 1];
        }
      }
      JoinFoundAll(rs[1..], p);
    }
  }

  /** A failed sequence fails with the error of one of its steps. */
  lemma SequenceErrorFromStep<T, E>(rs: seq<Result<seq<T>, E>>)
    requires Sequence(rs).Err?
    ensures exists i | 0 <= i < |rs| :: rs[i] == Err(Sequence(rs).error)
  {
    SequenceErr(rs);
    var i :| FirstError(rs, i);
  }
}
