/** The client's read loop: every read appends the whole 1024-byte buffer, and the
    surplus is cut off once at the end. */
module ResponseReader {
  import opened Prelude

  const BUFFER: nat := 1024

  type Byte = x: nat | x < 256

  // What one turn of the loop meets: the overall time is up, the read fails, or it
  // delivers some bytes (none at end of stream), at most a buffer full.
  datatype Turn = TimeUp | ReadFails | Delivers(bytes: seq<Byte>)

  // The bytes of the turns that are carried out, up to the one that ends the loop; None
  // if a read fails first. Turns that have not come yet are not waited for.
  function Delivered(turns: seq<Turn>, started: bool): Option<seq<Byte>> {
    if turns == [] then Some([])
    else match turns[0]
      case TimeUp => Some([])
      case ReadFails => None
      case Delivers(bytes) =>
        if bytes == [] then
          if started then Some([]) else Delivered(turns[1..], false)
        else if |bytes| == BUFFER then
          match Delivered(turns[1..], true)
          case None => None
          case Some(rest) => Some(bytes + rest)
        else Some(bytes)
  }

  // The bytes that the first n turns delivered, one after another.
  function Bytes(turns: seq<Turn>, n: nat): seq<Byte>
    requires n <= |turns|
  {
    if n == 0 then []
    else Bytes(turns, n - 1) + if turns[n - 1].Delivers? then turns[n - 1].bytes else []
  }

  // The loop goes on after turn i: a full buffer, or nothing before anything came.
  ghost predicate GoesOn(turns: seq<Turn>, i: int)
    requires 0 <= i < |turns|
  {
    && turns[i].Delivers?
    && (|turns[i].bytes| == 1024 || (turns[i].bytes == [] && forall m | 0 <= m < i :: !Full(turns, m)))
  }

  ghost predicate Full(turns: seq<Turn>, m: int)
    requires 0 <= m < |turns|
  {
    turns[m].Delivers? && |turns[m].bytes| == 1024
  }

  // The loop takes n turns: it goes on after all but the last of them, and stops there or
  // runs out of turns.
  ghost predicate Takes(turns: seq<Turn>, n: nat)
    requires n <= |turns|
  {
    && (forall i | 0 <= i < n - 1 :: GoesOn(turns, i))
    && (n < |turns| ==> n > 0 && !GoesOn(turns, n - 1))
  }

  // The result is a failure exactly if the last turn taken is a failed read, and otherwise
  // all the bytes that the turns taken delivered.
  lemma {:induction false} DeliveredMeans(turns: seq<Turn>) returns (n: nat)
    ensures n <= |turns| && Takes(turns, n)
    ensures Delivered(turns, false) ==
            if n > 0 && turns[n - 1].ReadFails? then None else Some(Bytes(turns, n))
  {
    n := TakenFrom(turns, 0);
    var d := Delivered(turns, false);
    assert turns[0..] == turns && !Started(turns, 0) && (d.Some? ==> [] + d.value == d.value);
  }

  ghost predicate Started(turns: seq<Turn>, i: nat)
    requires i <= |turns|
  {
    exists m :: 0 <= m < i && Full(turns, m)
  }

  lemma {:induction false} TakenFrom(turns: seq<Turn>, i: nat) returns (n: nat)
    requires i <= |turns| && forall m | 0 <= m < i :: GoesOn(turns, m)
    ensures i <= n <= |turns| && Takes(turns, n)
    ensures Prepend(Bytes(turns, i), Delivered(turns[i..], Started(turns, i))) ==
            if n > i && turns[n - 1].ReadFails? then None else Some(Bytes(turns, n))
    decreases |turns| - i
  {
    if i == |turns| {
      n := i;
      assert turns[i..] == [] && Bytes(turns, i) + [] == Bytes(turns, i);
    } else {
      var turn := turns[i];
      assert turns[i..][0] == turn && turns[i..][1..] == turns[i + 1..];
      if GoesOn(turns, i) {
        n := TakenFrom(turns, i + 1);
        StartedNext(turns, i);
        var d := Delivered(turns[i + 1..], Started(turns, i + 1));
        OneTurn(turns, i, d);
        assert d.Some? ==> [] + d.value == d.value;
        assert Delivered(turns[i..], Started(turns, i)) == Prepend(turn.bytes, d);
      } else {
        n := i + 1;
        assert Bytes(turns, i) + [] == Bytes(turns, i);
      }
    }
  }

  lemma {:induction false} StartedNext(turns: seq<Turn>, i: nat)
    requires i < |turns|
    ensures Started(turns, i + 1) <==> Started(turns, i) || Full(turns, i)
  {
  }

  lemma {:induction false} OneTurn(turns: seq<Turn>, i: nat, d: Option<seq<Byte>>)
    requires i < |turns| && turns[i].Delivers?
    ensures Prepend(Bytes(turns, i), Prepend(turns[i].bytes, d)) == Prepend(Bytes(turns, i + 1), d)
  {
    if d.Some? {
      assert Bytes(turns, i) + (turns[i].bytes + d.value) == Bytes(turns, i + 1) + d.value;
    }
  }

  // A buffer with the bytes at its front and zeros behind.
  function Padded(bytes: seq<Byte>): (r: seq<Byte>)
    requires |bytes| <= BUFFER
    ensures |r| == BUFFER && r[..|bytes|] == bytes
  {
    bytes + seq(BUFFER - |bytes|, _ => 0)
  }

  function Prepend(data: seq<Byte>, rest: Option<seq<Byte>>): Option<seq<Byte>> {
    match rest
    case None => None
    case Some(bytes) => Some(data + bytes)
  }

  lemma {:induction false} Joined(data: seq<Byte>, bytes: seq<Byte>, d: Option<seq<Byte>>)
    ensures Prepend(data, Prepend(bytes, d)) == Prepend(data + bytes, d)
  {
    if d.Some? {
      assert data + (bytes + d.value) == data + bytes + d.value;
    }
  }

  // The data handed to the decoder is exactly what was delivered.
  method ReadResponse(turns: seq<Turn>) returns (r: Result<seq<Byte>>)
    requires forall i | 0 <= i < |turns| && turns[i].Delivers? :: |turns[i].bytes| <= BUFFER
    ensures r == match Delivered(turns, false) case None => Err case Some(bytes) => Ok(bytes)
  {
    var readStarted, complete := false, false;
    var data: seq<Byte> := [];
    var counter, i := 0, 0;
    ghost var goal := Delivered(turns, false);
    assert turns[0..] == turns && (goal.Some? ==> [] + goal.value == goal.value);
    while i < |turns| && !complete
      invariant i <= |turns| && counter <= |data|
      invariant !complete ==> counter == |data| && goal == Prepend(data, Delivered(turns[i..], readStarted))
      invariant complete ==> goal == Some(data[..counter])
    {
      var turn := turns[i];
      ghost var rest := turns[i + 1..];
      assert turns[i..][1..] == rest && turns[i..][0] == turn;
      assert data[..|data|] == data && data + [] == data;
      i := i + 1;
      match turn {
        case TimeUp => complete := true;
        case ReadFails => return Err;
        case Delivers(bytes) =>
          if bytes == [] {
            complete := readStarted;
          } else {
            ghost var before := data;
            data := data + Padded(bytes);
            counter := counter + |bytes|;
            assert data[..counter] == before + bytes;
            if |bytes| == BUFFER {
              readStarted := true;
              Joined(before, bytes, Delivered(rest, true));
              assert data == before + bytes by {
                assert data[..|data|] == data;
              }
            } else {
              complete := true;
            }
          }
      }
    }
    assert turns[|turns|..] == [] && data[..|data|] == data && data + [] == data;
    // Only a last, partial read leaves padding, and it is at the end.
    data := data[..counter];
    r := Ok(data);
  }
}
