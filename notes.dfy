/**
 * The piano-roll encoder of examples/data/music/convert.py: a time step is a tuple of the
 * MIDI note numbers sounding at that step, and it becomes an 88-slot vector of 0s and 1s,
 * slot k standing for note k + 21 (the 88 keys of a piano run from note 21 to note 108).
 */
module Notes {
  import opened Results

  /** The failed assertion 'Unexpected value in tuple.' (lines 19-20). */
  datatype MusicError = UnexpectedValue

  const Keys: nat := 88
  const LowestNote: int := 21
  const HighestNote: int := 108

  /** Every note of the tuple is a piano key. */
  predicate ValidNotes(tup: seq<int>) {
    forall i | 0 <= i < |tup| :: LowestNote <= tup[i] <= HighestNote
  }

  /** The 0/1 vector whose slot k is 1 exactly when note k + 21 sounds. */
  function NoteVector(tup: seq<int>): (v: seq<int>)
    ensures |v| == Keys
    ensures forall k | 0 <= k < Keys :: v[k] == 0 || v[k] == 1
  {
    seq(Keys, k requires 0 <= k < Keys => if k + LowestNote in tup then 1 else 0)
  }

  /** What `tup2list` computes: the note vector, or the assertion failure. */
  function Encode(tup: seq<int>): (r: Result<seq<int>, MusicError>)
    ensures r.Ok? <==> ValidNotes(tup)
    ensures r.Err? ==> r.error == UnexpectedValue
    ensures r.Ok? ==> |r.value| == Keys && forall k | 0 <= k < Keys :: r.value[k] == 1 <==> k + LowestNote in tup
  {
    if ValidNotes(tup) then Ok(NoteVector(tup)) else Err(UnexpectedValue)
  }

  /** The notes a 0/1 vector marks as sounding. */
  function NotesOf(v: seq<int>): (notes: set<int>)
    ensures forall n | n in notes :: LowestNote <= n < LowestNote + |v|
  {
    set k | 0 <= k < |v| && v[k] == 1 :: k + LowestNote
  }

  /**
   * `tup2list(tup)` (lines 15-22): a zero vector of 88 slots; for a non-empty tuple the
   * smallest note must be at least 21 and the largest at most 108, and then the slot of
   * every note is set to 1.
   */
  method Tup2List(tup: seq<int>) returns (r: Result<seq<int>, MusicError>)
    ensures r == Encode(tup)
  {
    var out := new int[Keys](_ => 0);
    if |tup| > 0 {
      var lo, hi := tup[0], tup[0];
      for i := 1 to |tup|
        invariant 0 <= i <= |tup|
        invariant lo in tup && hi in tup
        invariant forall j | 0 <= j < i :: lo <= tup[j] <= hi
      {
        if tup[i] < lo {
          lo := tup[i];
        }
        if tup[i] > hi {
          hi := tup[i];
        }
      }
      if lo < LowestNote {
        return Err(UnexpectedValue);
      }
      if hi > HighestNote {
        return Err(UnexpectedValue);
      }
      for i := 0 to |tup|
        invariant forall k | 0 <= k < Keys :: out[k] == if k + LowestNote in tup[..i] then 1 else 0
      {
        assert tup[..i + 1] == tup[..i] + [tup[i]];
        out[tup[i] - LowestNote] := 1;
      }
      assert tup[..|tup|] == tup;
    }
    assert out[..] == NoteVector(tup);
    return Ok(out[..]);
  }

  /** `tup2list` of the empty tuple is 88 zeros (line 25). */
  lemma EmptyTuple()
    ensures Encode([]) == Ok(seq(Keys, _ => 0))
  {
    assert NoteVector([]) == seq(Keys, _ => 0);
  }

  /** `tup2list((21, 108))` sets exactly the first and the last slot (line 24). */
  lemma LowestAndHighest()
    ensures Encode([21, 108]).Ok?
    ensures forall k | 0 <= k < Keys :: Encode([21, 108]).value[k] == if k == 0 || k == 87 then 1 else 0
  {
  }

  /** A note below 21 or above 108 anywhere in the tuple fails the assertions. */
  lemma OutOfRange(tup: seq<int>, i: nat)
    requires i < |tup| && (tup[i] < LowestNote || tup[i] > HighestNote)
    ensures Encode(tup) == Err(UnexpectedValue)
  {
  }

  /** For a valid tuple, slot k is 1 if and only if note k + 21 is in the tuple. */
  lemma SlotMeaning(tup: seq<int>, k: nat)
    requires ValidNotes(tup) && k < Keys
    ensures Encode(tup).Ok?
    ensures Encode(tup).value[k] == 1 <==> k + LowestNote in tup
  {
  }

  /** Order and repetition in the tuple do not matter: only which notes occur does. */
  lemma OrderIgnored(a: seq<int>, b: seq<int>)
    requires forall i | 0 <= i < |a| :: a[i] in b
    requires forall i | 0 <= i < |b| :: b[i] in a
    ensures Encode(a) == Encode(b)
  {
    if ValidNotes(a) {
      forall i | 0 <= i < |b|
        ensures LowestNote <= b[i] <= HighestNote
      {
        var j :| 0 <= j < |a| && a[j] == b[i];
      }
    }
    if ValidNotes(b) {
      forall i | 0 <= i < |a|
        ensures LowestNote <= a[i] <= HighestNote
      {
        var j :| 0 <= j < |b| && b[j] == a[i];
      }
    }
    forall k | 0 <= k < Keys
      ensures NoteVector(a)[k] == NoteVector(b)[k]
    {
      if k + LowestNote in a {
        var i :| 0 <= i < |a| && a[i] == k + LowestNote;
      }
      if k + LowestNote in b {
        var i :| 0 <= i < |b| && b[i] == k + LowestNote;
      }
    }
    assert NoteVector(a) == NoteVector(b);
  }

  /** Decoding the vector gives back exactly the set of notes of a valid tuple. */
  lemma NotesRoundTrip(tup: seq<int>)
    requires ValidNotes(tup)
    ensures Encode(tup).Ok? && NotesOf(Encode(tup).value) == set n | n in tup
  {
    var v := NoteVector(tup);
    forall n | n in tup
      ensures n in NotesOf(v)
    {
      var k := n - LowestNote;
      assert v[k] == 1;
    }
  }

  /** Encoding the notes a 0/1 vector of 88 slots marks gives back that vector. */
  lemma VectorRoundTrip(v: seq<int>, tup: seq<int>)
    requires |v| == Keys && forall k | 0 <= k < Keys :: v[k] == 0 || v[k] == 1
    requires (set n | n in tup) == NotesOf(v)
    ensures Encode(tup) == Ok(v)
  {
    forall i | 0 <= i < |tup|
      ensures LowestNote <= tup[i] <= HighestNote
    {
      assert tup[i] in (set n | n in tup);
      assert tup[i] in NotesOf(v);
    }
    forall k | 0 <= k < Keys
      ensures NoteVector(tup)[k] == v[k]
    {
      if v[k] == 1 {
        assert k + LowestNote in NotesOf(v);
      }
      if k + LowestNote in tup {
        assert k + LowestNote in (set n | n in tup);
        assert k + LowestNote in NotesOf(v);
        var k' :| 0 <= k' < |v| && v[k'] == 1 && k' + LowestNote == k + LowestNote;
      }
    }
    assert NoteVector(tup) == v;
  }

  /** The comprehension `[tup2list(step) for step in seq]`: one sequence of time steps. */
  function ConvertSequence(steps: seq<seq<int>>): (r: Result<seq<seq<int>>, MusicError>)
    ensures r.Ok? <==> forall j | 0 <= j < |steps| :: ValidNotes(steps[j])
    ensures r.Err? ==> r.error == UnexpectedValue
    ensures r.Ok? ==> |r.value| == |steps| && forall j | 0 <= j < |steps| :: r.value[j] == NoteVector(steps[j])
  {
    if steps == [] then Ok([])
    else
      var head :- Encode(steps[0]);
      var tail :- ConvertSequence(steps[1..]);
      assert forall j | 1 <= j < |steps| :: steps[j] == steps[1..][j - 1];
      Ok([head] + tail)
  }

  /** The comprehension over the sequences of one dataset. */
  function ConvertDataset(dataset: seq<seq<seq<int>>>): (r: Result<seq<seq<seq<int>>>, MusicError>)
    ensures r.Ok? <==> forall i | 0 <= i < |dataset| :: ConvertSequence(dataset[i]).Ok?
    ensures r.Err? ==> r.error == UnexpectedValue
    ensures r.Ok? ==> |r.value| == |dataset| && forall i | 0 <= i < |dataset| :: r.value[i] == ConvertSequence(dataset[i]).value
  {
    if dataset == [] then Ok([])
    else
      var head :- ConvertSequence(dataset[0]);
      var tail :- ConvertDataset(dataset[1..]);
      assert forall i | 1 <= i < |dataset| :: dataset[i] == dataset[1..][i - 1];
      Ok([head] + tail)
  }

  /** Every time step of every sequence of every dataset is a valid tuple. */
  predicate AllValid(data: map<string, seq<seq<seq<int>>>>) {
    forall name, i, j | name in data && 0 <= i < |data[name]| && 0 <= j < |data[name][i]| ::
      ValidNotes(data[name][i][j])
  }

  /**
   * `convert(data)` (lines 30-31): every dataset of the dictionary, under the same name, with
   * each time step replaced by its note vector; an invalid step anywhere fails the assertion.
   */
  function Convert(data: map<string, seq<seq<seq<int>>>>): (r: Result<map<string, seq<seq<seq<int>>>>, MusicError>)
    ensures r.Err? ==> r.error == UnexpectedValue
    ensures r.Ok? ==> r.value.Keys == data.Keys && forall name | name in data :: |r.value[name]| == |data[name]|
  {
    if forall name | name in data :: ConvertDataset(data[name]).Ok? then
      Ok(map name | name in data :: ConvertDataset(data[name]).value)
    else
      Err(UnexpectedValue)
  }

  /**
   * `convert` keeps the structure: the same names, the same number of sequences under each
   * name and of steps in each sequence, each step replaced by `tup2list(step)`; and it fails
   * exactly when some step is invalid.
   */
  lemma ConvertStructure(data: map<string, seq<seq<seq<int>>>>)
    ensures Convert(data).Ok? <==> AllValid(data)
    ensures Convert(data).Err? ==> Convert(data).error == UnexpectedValue
    ensures Convert(data).Ok? ==>
      var out := Convert(data).value;
      && out.Keys == data.Keys
      && forall name | name in data ::
        && |out[name]| == |data[name]|
        && forall i | 0 <= i < |data[name]| ::
          && |out[name][i]| == |data[name][i]|
          && forall j | 0 <= j < |data[name][i]| :: Encode(data[name][i][j]) == Ok(out[name][i][j])
  {
    if AllValid(data) {
      forall name | name in data
        ensures ConvertDataset(data[name]).Ok?
      {
        forall i | 0 <= i < |data[name]|
          ensures ConvertSequence(data[name][i]).Ok?
        {
          forall j | 0 <= j < |data[name][i]|
            ensures ValidNotes(data[name][i][j])
          {
          }
        }
      }
    } else {
      var name, i, j :| name in data && 0 <= i < |data[name]| && 0 <= j < |data[name][i]| &&
        !ValidNotes(data[name][i][j]);
      assert !ConvertSequence(data[name][i]).Ok?;
      assert !ConvertDataset(data[name]).Ok?;
    }
  }
}
