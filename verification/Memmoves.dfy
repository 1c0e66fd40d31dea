/**
 A pass of memmoves to places one after another, none of them upwards
 (entradasalida/src/instrucciones_io.c:272-285).
 */
module Memmoves {
  import opened FlatMemory

  /** One memmove: `n` bytes from `from` to `to`. */
  datatype Move = Move(to: nat, from: nat, n: nat)

  /** Where the pieces moved so far end. */
  ghost function End(moves: seq<Move>): nat {
    if moves == [] then 0 else moves[|moves| - 1].to + moves[|moves| - 1].n
  }

  /** Downward moves to places one after another. */
  ghost predicate MovesOk(moves: seq<Move>, size: nat) {
    moves == [] ||
    var init, m := moves[..|moves| - 1], moves[|moves| - 1];
    MovesOk(init, size) && End(init) <= m.to <= m.from && m.from + m.n <= size
  }

  lemma {:induction false} EndsInOrder(moves: seq<Move>, size: nat, j: nat)
    requires MovesOk(moves, size) && j < |moves|
    ensures moves[j].to + moves[j].n <= End(moves) && moves[j].to <= moves[j].from && moves[j].from + moves[j].n <= size
  {
    if j < |moves| - 1 {
      EndsInOrder(moves[..|moves| - 1], size, j);
    }
  }

  ghost function MoveOne(data: seq<Byte>, m: Move): (r: seq<Byte>)
    requires m.to + m.n <= |data| && m.from + m.n <= |data|
    ensures |r| == |data|
  {
    Splice(data, m.to, data[m.from..m.from + m.n])
  }

  /** All the moves, in order. */
  ghost function Moved(data: seq<Byte>, moves: seq<Move>): (r: seq<Byte>)
    requires MovesOk(moves, |data|)
    ensures |r| == |data|
  {
    if moves == [] then data else MoveOne(Moved(data, moves[..|moves| - 1]), moves[|moves| - 1])
  }

  /** What has not been moved yet has not been overwritten. */
  lemma {:induction false} MovedBeyond(data: seq<Byte>, moves: seq<Move>, x: nat)
    requires MovesOk(moves, |data|) && End(moves) <= x < |data|
    ensures Moved(data, moves)[x] == data[x]
  {
    if moves != [] {
      MovedBeyond(data, moves[..|moves| - 1], x);
    }
  }

  lemma MovedBelow(data: seq<Byte>, moves: seq<Move>, x: nat)
    requires MovesOk(moves, |data|) && moves != [] && x < moves[|moves| - 1].to
    ensures Moved(data, moves)[x] == Moved(data, moves[..|moves| - 1])[x]
  {
  }

  /** Byte `x` of the move's destination is byte `y` of its source. */
  ghost predicate Carries(m: Move, x: int, y: int) {
    m.to <= x < m.to + m.n && y - m.from == x - m.to
  }

  lemma MoveOneAt(data: seq<Byte>, m: Move, x: nat, y: nat)
    requires m.to + m.n <= |data| && m.from + m.n <= |data| && Carries(m, x, y)
    ensures y < |data| && MoveOne(data, m)[x] == data[y]
  {
    assert data[m.from..m.from + m.n][x - m.to] == data[y];
  }

  lemma MovedLast(data: seq<Byte>, moves: seq<Move>, x: nat, y: nat)
    requires MovesOk(moves, |data|) && moves != [] && Carries(moves[|moves| - 1], x, y)
    ensures y < |data| && Moved(data, moves)[x] == data[y]
  {
    var init, m := moves[..|moves| - 1], moves[|moves| - 1];
    MovedBeyond(data, init, y);
    MoveOneAt(Moved(data, init), m, x, y);
  }

  /** After the pass, each byte has arrived. */
  lemma {:induction false} MovedArrives(data: seq<Byte>, moves: seq<Move>, j: nat, x: nat, y: nat)
    requires MovesOk(moves, |data|) && j < |moves| && Carries(moves[j], x, y)
    ensures x < |data| && y < |data| && Moved(data, moves)[x] == data[y]
  {
    var init := moves[..|moves| - 1];
    if j == |init| {
      MovedLast(data, moves, x, y);
    } else {
      MovedArrives(data, init, j, x, y);
      EndsInOrder(init, |data|, j);
      MovedBelow(data, moves, x);
    }
  }

  /** Slices are equal if their bytes are, position by position. */
  lemma SlicesEqual(l: seq<Byte>, r: seq<Byte>, to: nat, from: nat, n: nat)
    requires to + n <= |l| && from + n <= |r|
    requires forall x, y | to <= x < to + n && y - from == x - to :: l[x] == r[y]
    ensures l[to..to + n] == r[from..from + n]
  {
    var a, b := l[to..to + n], r[from..from + n];
    forall k | 0 <= k < n
      ensures a[k] == b[k]
    {
      assert l[to + k] == r[from + k];
    }
  }

  /** After the pass, each piece has arrived. */
  lemma SliceArrives(data: seq<Byte>, moves: seq<Move>, j: nat, n: nat)
    requires MovesOk(moves, |data|) && j < |moves| && n <= moves[j].n
    ensures moves[j].to <= moves[j].from && moves[j].from + moves[j].n <= |data|
    ensures Moved(data, moves)[moves[j].to..moves[j].to + n] == data[moves[j].from..moves[j].from + n]
  {
    EndsInOrder(moves, |data|, j);
    var l, m := Moved(data, moves), moves[j];
    forall x, y | m.to <= x < m.to + n && y - m.from == x - m.to
      ensures l[x] == data[y]
    {
      MovedArrives(data, moves, j, x, y);
    }
    SlicesEqual(l, data, m.to, m.from, n);
  }

  lemma {:induction false} PrefixOk(moves: seq<Move>, size: nat, k: nat)
    requires MovesOk(moves, size) && k <= |moves|
    ensures MovesOk(moves[..k], size)
  {
    if k < |moves| {
      PrefixOk(moves[..|moves| - 1], size, k);
      assert moves[..|moves| - 1][..k] == moves[..k];
    } else {
      assert moves[..k] == moves;
    }
  }

  /** Each move starts where the one before it ended. */
  ghost predicate Chained(moves: seq<Move>) {
    forall k | 0 <= k < |moves| :: moves[k].to == End(moves[..k])
  }

  lemma MovedSnoc(data: seq<Byte>, init: seq<Move>, m: Move)
    requires MovesOk(init + [m], |data|)
    ensures MovesOk(init, |data|) && End(init + [m]) == m.to + m.n
    ensures m.to + m.n <= |data| && m.from + m.n <= |data|
    ensures Moved(data, init + [m]) == MoveOne(Moved(data, init), m)
  {
    assert (init + [m])[..|init|] == init;
  }

  lemma TakeSnoc(moves: seq<Move>, k: nat)
    requires k < |moves|
    ensures moves[..k + 1] == moves[..k] + [moves[k]]
  {
  }

  /** The next move of a pass. */
  lemma MovedNext(data: seq<Byte>, moves: seq<Move>, k: nat)
    requires MovesOk(moves, |data|) && k < |moves|
    ensures MovesOk(moves[..k], |data|) && MovesOk(moves[..k + 1], |data|)
    ensures End(moves[..k + 1]) == moves[k].to + moves[k].n
    ensures moves[k].to + moves[k].n <= |data| && moves[k].from + moves[k].n <= |data|
    ensures Moved(data, moves[..k + 1]) == MoveOne(Moved(data, moves[..k]), moves[k])
  {
    PrefixOk(moves, |data|, k + 1);
    TakeSnoc(moves, k);
    MovedSnoc(data, moves[..k], moves[k]);
  }
}
