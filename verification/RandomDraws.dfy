/** A random source as an arbitrary stream of draws, of which each call uses up the next ones. */
module RandomDraws {

  /** The n-th draw, as a number from [0, 1). */
  function Draw(stream: nat -> real, n: nat): (x: real)
    ensures 0.0 <= x < 1.0
  {
    stream(n) - stream(n).Floor as real
  }

  /** The n-th draw, as an index below `size`. */
  function Choice(stream: nat -> real, n: nat, size: nat): (i: nat)
    requires size > 0
    ensures i < size
  {
    stream(n).Floor % size
  }

  /** The (n + 1)-st draw as a second index, different from the one the n-th draw chooses. */
  function OtherChoice(stream: nat -> real, n: nat, size: nat): (j: nat)
    requires size >= 2
    ensures j < size && j != Choice(stream, n, size)
  {
    var j := Choice(stream, n + 1, size - 1);
    if j >= Choice(stream, n, size) then j + 1 else j
  }

  class RandomSource {
    const stream: nat -> real
    var used: nat

    constructor (stream: nat -> real)
      ensures this.stream == stream && used == 0
    {
      this.stream := stream;
      used := 0;
    }

    /** A draw from [0, 1). */
    method Next() returns (x: real)
      modifies this
      ensures x == Draw(stream, old(used)) && used == old(used) + 1
    {
      var draw := stream(used);
      used := used + 1;
      x := draw - draw.Floor as real;
    }

    method Choose(n: nat) returns (i: nat)
      requires n > 0
      modifies this
      ensures i == Choice(stream, old(used), n) && used == old(used) + 1
    {
      var draw := stream(used);
      used := used + 1;
      i := draw.Floor % n;
    }

    /** Two different indices. */
    method ChooseTwo(n: nat) returns (i: nat, j: nat)
      requires n >= 2
      modifies this
      ensures i == Choice(stream, old(used), n) && j == OtherChoice(stream, old(used), n)
      ensures used == old(used) + 2
    {
      i := Choose(n);
      j := Choose(n - 1);
      if j >= i {
        j := j + 1;
      }
    }
  }
}
