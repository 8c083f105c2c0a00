/**
 * The frame-scoped string id cache of the Origami sample
 * (Samples/Origami/Utils/PaperId.cs): a counter that restarts every frame
 * and a list of the decimal strings handed out so far, kept across frames
 * so that the strings are not allocated again.
 *
 * The static class becomes one object; its fields are the static fields.
 */
module PaperIds {
  import opened Wrappers

  /** int.ToString() of a non-negative number: its decimal digits, most significant first. */
  function Decimal(n: nat): (r: string)
    ensures |r| >= 1
    ensures forall i :: 0 <= i < |r| ==> '0' <= r[i] <= '9'
    ensures |r| == 1 <==> n < 10
    ensures n >= 10 ==> r[0] != '0'
    decreases n
  {
    if n < 10 then [Digit(n)] else Decimal(n / 10) + [Digit(n % 10)]
  }

  function Digit(d: nat): (c: char)
    requires d < 10
    ensures '0' <= c <= '9' && c as int - '0' as int == d
  {
    (d + '0' as int) as char
  }

  /** Different numbers have different decimal strings. */
  lemma {:induction false} DecimalInjective(a: nat, b: nat)
    requires Decimal(a) == Decimal(b)
    ensures a == b
    decreases a
  {
    if a >= 10 && b >= 10 {
      var da, db := Decimal(a), Decimal(b);
      assert da[|da| - 1] == Digit(a % 10) && db[|db| - 1] == Digit(b % 10);
      assert da[..|da| - 1] == Decimal(a / 10) && db[..|db| - 1] == Decimal(b / 10);
      DecimalInjective(a / 10, b / 10);
    } else {
      assert Decimal(a)[0] == Digit(a) && Decimal(b)[0] == Digit(b);
    }
  }

  /** The static fields: _currentId, _idPool and NumberAccessedLastFrame. */
  datatype IdState = IdState(currentId: nat, idPool: seq<string>, numberAccessedLastFrame: int)

  const Initial := IdState(0, [], 0)

  /** What the code keeps: the list always holds an entry for every id handed out this frame. */
  predicate Inv(s: IdState) {
    |s.idPool| >= s.currentId
  }

  /**
   * Next, as written: the counter goes up by one; the decimal string of the
   * new counter is appended when Count <= _currentId; the entry at the new
   * counter minus one is returned.
   */
  function NextAsWritten(s: IdState): (r: (IdState, string))
    requires Inv(s)
    ensures Inv(r.0)
    ensures r.0.currentId == s.currentId + 1 && r.0.numberAccessedLastFrame == s.numberAccessedLastFrame
    ensures s.idPool <= r.0.idPool && |r.0.idPool| <= |s.idPool| + 1
    ensures |r.0.idPool| == |s.idPool| + 1 <==> |s.idPool| <= s.currentId + 1
    ensures r.1 == r.0.idPool[s.currentId]
  {
    var id := s.currentId + 1;
    var pool := if |s.idPool| <= id then s.idPool + [Decimal(id)] else s.idPool;
    (s.(currentId := id, idPool := pool), pool[id - 1])
  }

  /** Next with the guard Count < _currentId: an entry is appended exactly when the new id has none. */
  function NextCorrected(s: IdState): (r: (IdState, string))
    requires Inv(s)
    ensures Inv(r.0)
    ensures r.0.currentId == s.currentId + 1 && r.0.numberAccessedLastFrame == s.numberAccessedLastFrame
    ensures s.idPool <= r.0.idPool && |r.0.idPool| <= |s.idPool| + 1
    ensures r.1 == r.0.idPool[s.currentId]
  {
    var id := s.currentId + 1;
    var pool := if |s.idPool| < id then s.idPool + [Decimal(id)] else s.idPool;
    (s.(currentId := id, idPool := pool), pool[id - 1])
  }

  /** Reset: the counter is recorded and restarts; the list is kept. */
  function ResetOf(s: IdState): (r: IdState)
    ensures r.numberAccessedLastFrame == s.currentId && r.currentId == 0 && r.idPool == s.idPool
  {
    s.(numberAccessedLastFrame := s.currentId, currentId := 0)
  }

  /** The list of the corrected cache: entry i is the decimal string of i + 1. */
  predicate Canonical(s: IdState) {
    Inv(s) && forall i :: 0 <= i < |s.idPool| ==> s.idPool[i] == Decimal(i + 1)
  }

  /** The state after k calls of Next (as written) from s. */
  function NextTimes(s: IdState, k: nat): (r: IdState)
    requires Inv(s)
    ensures Inv(r) && r.currentId == s.currentId + k
  {
    if k == 0 then s else NextAsWritten(NextTimes(s, k - 1)).0
  }

  /**
   * In the first frame (before any Reset) the list grows with the counter,
   * so the k-th Next returns the decimal string of k.
   */
  lemma {:induction false} FirstFrame(k: nat)
    ensures Canonical(NextTimes(Initial, k)) && |NextTimes(Initial, k).idPool| == k
    ensures k >= 1 ==> NextAsWritten(NextTimes(Initial, k - 1)).1 == Decimal(k)
  {
    if k >= 1 {
      FirstFrame(k - 1);
    }
  }

  /**
   * As written, one Next, a Reset and two more Next calls hand out "1"
   * twice in the second frame: the first Next of that frame appends a
   * second "1" because Count <= _currentId holds with equality.
   */
  lemma DuplicateAfterReset()
    ensures var s1 := NextAsWritten(Initial).0;
      var s2 := ResetOf(s1);
      var (s3, a) := NextAsWritten(s2);
      var (_, b) := NextAsWritten(s3);
      a == "1" && b == "1"
  {
    assert Decimal(1) == "1";
  }

  /** With the corrected guard, every Next returns the decimal string of the new counter, frame after frame. */
  lemma CorrectedNextIsCounter(s: IdState)
    requires Canonical(s)
    ensures Canonical(NextCorrected(s).0)
    ensures NextCorrected(s).1 == Decimal(s.currentId + 1)
    ensures Canonical(ResetOf(s))
  {
  }

  /** So with the corrected guard two calls of Next in one frame never return the same id. */
  lemma CorrectedIdsDistinct(s: IdState, t: IdState)
    requires Canonical(s) && Canonical(t) && s.currentId != t.currentId
    ensures NextCorrected(s).1 != NextCorrected(t).1
  {
    CorrectedNextIsCounter(s);
    CorrectedNextIsCounter(t);
    if NextCorrected(s).1 == NextCorrected(t).1 {
      DecimalInjective(s.currentId + 1, t.currentId + 1);
    }
  }

  datatype IdError =
    /** ArgumentOutOfRangeException from the list indexer. */
    | IndexOutOfRange(index: int, count: nat)

  /** Current: the list entry at the counter (one past the entry Next last returned). */
  function Current(s: IdState): (r: Result<string, IdError>)
    ensures r.Success? <==> s.currentId < |s.idPool|
    ensures r.Success? ==> r.value == s.idPool[s.currentId]
    ensures r.Failure? ==> r.error == IndexOutOfRange(s.currentId, |s.idPool|)
  {
    if s.currentId < |s.idPool| then Success(s.idPool[s.currentId])
    else Failure(IndexOutOfRange(s.currentId, |s.idPool|))
  }

  /** In the first frame Current always fails: the list ends at the counter. */
  lemma FirstFrameCurrentFails(k: nat)
    ensures Current(NextTimes(Initial, k)).Failure?
  {
    FirstFrame(k);
  }

  /** The static class PaperId. */
  class PaperId {
    var currentId: nat
    var idPool: seq<string>
    var numberAccessedLastFrame: int

    function State(): IdState
      reads this
    {
      IdState(currentId, idPool, numberAccessedLastFrame)
    }

    ghost predicate Valid()
      reads this
    {
      Inv(State())
    }

    constructor()
      ensures Valid() && State() == Initial
    {
      currentId := 0;
      idPool := [];
      numberAccessedLastFrame := 0;
    }

    /** MaxNumberAccessed. */
    function MaxNumberAccessed(): (r: int)
      reads this
      ensures r + 1 == |idPool|
    {
      |idPool| - 1
    }

    /** Next, as written. */
    method Next() returns (id: string)
      requires Valid()
      modifies this
      ensures Valid()
      ensures (State(), id) == NextAsWritten(old(State()))
    {
      currentId := currentId + 1;
      if |idPool| <= currentId {
        idPool := idPool + [Decimal(currentId)];
      }
      id := idPool[currentId - 1];
    }

    /** Next with the corrected guard. */
    method NextFixed() returns (id: string)
      requires Valid()
      modifies this
      ensures Valid()
      ensures (State(), id) == NextCorrected(old(State()))
    {
      currentId := currentId + 1;
      if |idPool| < currentId {
        idPool := idPool + [Decimal(currentId)];
      }
      id := idPool[currentId - 1];
    }

    method Reset()
      requires Valid()
      modifies this
      ensures Valid()
      ensures State() == ResetOf(old(State()))
    {
      numberAccessedLastFrame := currentId;
      currentId := 0;
    }
  }
}
