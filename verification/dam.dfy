/** The dam grid of vision/dam.py: twelve squares indexed row by row, each holding at most one
    crack length, and a current position used when a crack is marked without one. */
module Dam {
  import opened Common

  const Squares: nat := 12
  const LengthMin: real := 8.0
  const LengthMax: real := 20.0

  /** The errors the source raises: an out-of-range position assignment (ValueError), a crack
      marked with no position at all (TypeError: the list is indexed with None), and a crack
      marked at an index the list does not have (IndexError). */
  datatype DamError = ValueError | TypeError | IndexError

  /** Each square holds the stored crack length, or None when it has no crack. */
  datatype Dam = Dam(squares: seq<Option<real>>, position: Option<int>)

  function NewDam(): (d: Dam)
    ensures |d.squares| == Squares
    ensures forall i | 0 <= i < |d.squares| :: d.squares[i] == None
    ensures d.position == None
  {
    Dam(seq(Squares, _ => None), None)
  }

  /** The competition's length limits applied to a reading (rounding is not modelled). */
  function FormatLength(length: real): (r: real)
    ensures LengthMin <= r <= LengthMax
    ensures LengthMin <= length <= LengthMax ==> r == length
    ensures length > LengthMax ==> r == LengthMax
    ensures length < LengthMin ==> r == LengthMin
  {
    var atLeast := if length > LengthMin then length else LengthMin;
    if atLeast < LengthMax then atLeast else LengthMax
  }

  /** The documented example: a reading of 21.3 is stored as 20. */
  lemma FormatLengthExample()
    ensures FormatLength(21.3) == 20.0
  {
  }

  /** Python's list indexing: 0 <= i < n picks element i, -n <= i < 0 picks element n + i,
      anything else is an IndexError. */
  function ListIndex(i: int, n: nat): (r: Option<nat>)
    ensures r.Some? <==> -(n as int) <= i < n
    ensures r.Some? ==> r.value < n && (r.value == i || r.value == n + i)
  {
    if 0 <= i < n then Some(i)
    else if -(n as int) <= i < 0 then Some(n + i)
    else None
  }

  /** The position setter: values 0 to 12 inclusive are taken, any other raises ValueError. */
  function SetPosition(d: Dam, value: int): (r: Result<Dam, DamError>)
    ensures r.Success? <==> 0 <= value <= Squares
    ensures r.Success? ==> r.value == d.(position := Some(value))
    ensures r.Failure? ==> r.error == ValueError
  {
    if 0 <= value <= Squares then Success(d.(position := Some(value))) else Failure(ValueError)
  }

  /** Marking a crack at `position`, or at the current position when none is given. A square
      that already holds a crack keeps it: the first crack marked in a square wins. */
  function MarkCrack(d: Dam, length: real, position: Option<int>): (r: Result<Dam, DamError>)
    requires |d.squares| == Squares
    ensures position.None? && d.position.None? <==> r == Failure(TypeError)
    ensures r.Success? ==> r.value.position == d.position && |r.value.squares| == Squares
    // nothing already marked ever changes
    ensures r.Success? ==> forall i | 0 <= i < Squares && d.squares[i].Some? :: r.value.squares[i] == d.squares[i]
  {
    var target := if position.Some? then position else d.position;
    if target.None? then Failure(TypeError)
    else match ListIndex(target.value, Squares)
      case None => Failure(IndexError)
      case Some(i) =>
        if d.squares[i].None? then Success(d.(squares := d.squares[i := Some(FormatLength(length))]))
        else Success(d)
  }

  /** The target square, as Python resolves it. */
  function Target(d: Dam, position: Option<int>): Option<nat>
  {
    var target := if position.Some? then position else d.position;
    if target.None? then None else ListIndex(target.value, Squares)
  }

  /** An empty target square gets the clamped length and no other square changes; a marked one
      leaves the whole dam unchanged; an index outside [-12, 12) is an IndexError. */
  lemma MarkCrackEffect(d: Dam, length: real, position: Option<int>)
    requires |d.squares| == Squares
    requires position.Some? || d.position.Some?
    ensures var t := if position.Some? then position.value else d.position.value;
      !(-(Squares as int) <= t < Squares) <==> MarkCrack(d, length, position) == Failure(IndexError)
    ensures Target(d, position).Some? && d.squares[Target(d, position).value].None? ==>
      var i := Target(d, position).value;
      && MarkCrack(d, length, position).Success?
      && MarkCrack(d, length, position).value.squares[i] == Some(FormatLength(length))
      && forall j | 0 <= j < Squares && j != i :: MarkCrack(d, length, position).value.squares[j] == d.squares[j]
    ensures Target(d, position).Some? && d.squares[Target(d, position).value].Some? ==>
      MarkCrack(d, length, position) == Success(d)
  {
  }

  /** Position 12 passes the setter, but there is no square 12: marking a crack there without
      an explicit position raises IndexError. */
  lemma PositionTwelveUnusable(d: Dam, length: real)
    requires |d.squares| == Squares
    ensures SetPosition(d, 12).Success?
    ensures MarkCrack(SetPosition(d, 12).value, length, None) == Failure(IndexError)
  {
  }

  /** Marks applied one after another: each (length, position) pair in turn, stopping at the
      first error. */
  function MarkAll(d: Dam, marks: seq<(real, Option<int>)>): (r: Result<Dam, DamError>)
    requires |d.squares| == Squares
    ensures r.Success? ==> |r.value.squares| == Squares
    decreases |marks|
  {
    if |marks| == 0 then Success(d)
    else match MarkCrack(d, marks[0].0, marks[0].1)
      case Failure(e) => Failure(e)
      case Success(d') => MarkAll(d', marks[1..])
  }

  /** However many marks follow, a square's first crack is the one it keeps. */
  lemma {:induction false} FirstMarkWins(d: Dam, marks: seq<(real, Option<int>)>, i: nat)
    requires |d.squares| == Squares && i < Squares && d.squares[i].Some?
    ensures MarkAll(d, marks).Success? ==> MarkAll(d, marks).value.squares[i] == d.squares[i]
    decreases |marks|
  {
    if |marks| > 0 {
      var r := MarkCrack(d, marks[0].0, marks[0].1);
      if r.Success? {
        FirstMarkWins(r.value, marks[1..], i);
      }
    }
  }
}
