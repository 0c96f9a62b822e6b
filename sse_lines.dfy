/**
 * Line framing of a simplified Server-Sent Events body (section 9.2 of the
 * WHATWG HTML Living Standard): text is cut at "\n" with `split`, every piece
 * followed by a newline is a complete line, and the trailing piece waits for
 * more text. The stream readers keep that trailing piece in a buffer between
 * chunks; the lemmas here show that what they produce is a function of the
 * whole text read so far.
 */
module SseLines {
  import Seqs

  /** `s.split("\n")`, built from the left: each character either closes the last piece or extends it. */
  function Split(s: string): (r: seq<string>)
    ensures |r| >= 1
    ensures forall i :: 0 <= i < |r| ==> '\n' !in r[i]
  {
    if s == [] then [""]
    else
      var t := Split(s[..|s| - 1]);
      var c := s[|s| - 1];
      if c == '\n' then t + [""] else Grow(t, c)
  }

  /** The pieces with `c` added to the last one. */
  function Grow(t: seq<string>, c: char): seq<string>
    requires |t| >= 1
  {
    t[..|t| - 1] + [t[|t| - 1] + [c]]
  }

  /** The lines of `s` that a newline has closed. */
  function CompleteLines(s: string): seq<string> {
    Split(s)[..|Split(s)| - 1]
  }

  /** The text after the last newline of `s` (what `lines.pop()` leaves in the buffer). */
  function Pending(s: string): string {
    Split(s)[|Split(s)| - 1]
  }

  /** `Split` of a text given by its last character. */
  lemma SplitSnoc(s: string, c: char)
    ensures c == '\n' ==> Split(s + [c]) == Split(s) + [""]
    ensures c != '\n' ==> Split(s + [c]) == Grow(Split(s), c)
  {
    assert (s + [c])[..|s + [c]| - 1] == s;
  }

  lemma {:induction false} SplitWithoutNewline(s: string)
    requires '\n' !in s
    ensures Split(s) == [s]
  {
    if s != [] {
      var init := s[..|s| - 1];
      assert '\n' !in init;
      SplitWithoutNewline(init);
      assert init + [s[|s| - 1]] == s;
    }
  }

  /** Splitting the text read so far plus a new chunk re-splits only the pending piece. */
  lemma {:induction false} SplitAppend(a: string, b: string)
    ensures Split(a + b) == CompleteLines(a) + Split(Pending(a) + b)
    decreases |b|
  {
    if b == [] {
      SplitWithoutNewline(Pending(a));
      assert a + b == a && Pending(a) + b == Pending(a);
    } else {
      var init, c := b[..|b| - 1], b[|b| - 1];
      var s1, s2 := a + init, Pending(a) + init;
      SplitAppend(a, init);
      SnocBoth(s1, s2, CompleteLines(a), c);
      LastOff(a, b);
      LastOff(Pending(a), b);
    }
  }

  lemma LastOff(a: string, b: string)
    requires b != []
    ensures a + b == (a + b[..|b| - 1]) + [b[|b| - 1]]
  {
    assert b == b[..|b| - 1] + [b[|b| - 1]];
  }

  /** A character appended to two texts whose splits share a tail changes only that tail. */
  lemma SnocBoth(s1: string, s2: string, x: seq<string>, c: char)
    requires Split(s1) == x + Split(s2)
    ensures Split(s1 + [c]) == x + Split(s2 + [c])
  {
    var y := Split(s2);
    SplitSnoc(s1, c);
    SplitSnoc(s2, c);
    if c == '\n' {
      CloseLast(x, y);
    } else {
      ExtendLast(x, y, c);
    }
  }

  /** Closing the last piece of a split touches only its final part. */
  lemma CloseLast(x: seq<string>, y: seq<string>)
    ensures (x + y) + [""] == x + (y + [""])
  {
  }

  /** Extending the last piece of a split touches only its final part. */
  lemma ExtendLast(x: seq<string>, y: seq<string>, c: char)
    requires |y| >= 1
    ensures Grow(x + y, c) == x + Grow(y, c)
  {
    var t := x + y;
    assert t[..|t| - 1] == x + y[..|y| - 1];
  }

  /** The output of running `handle` on each line in turn. */
  function FlatMap<U>(lines: seq<string>, handle: string -> seq<U>): seq<U> {
    if lines == [] then []
    else FlatMap(lines[..|lines| - 1], handle) + handle(lines[|lines| - 1])
  }

  /** One more line handled. */
  lemma FlatMapStep<U>(lines: seq<string>, j: int, handle: string -> seq<U>)
    requires 0 <= j < |lines|
    ensures FlatMap(lines[..j + 1], handle) == FlatMap(lines[..j], handle) + handle(lines[j])
  {
    assert lines[..j + 1][..j] == lines[..j];
  }

  lemma {:induction false} FlatMapAppend<U>(a: seq<string>, b: seq<string>, handle: string -> seq<U>)
    ensures FlatMap(a + b, handle) == FlatMap(a, handle) + FlatMap(b, handle)
    decreases |b|
  {
    if b != [] {
      assert (a + b)[..|a + b| - 1] == a + b[..|b| - 1];
      assert (a + b)[|a + b| - 1] == b[|b| - 1];
      FlatMapAppend(a, b[..|b| - 1], handle);
    } else {
      assert a + b == a;
    }
  }

  /** What a reader emits for the text `s`: the handler's output for every complete line. */
  function Output<U>(s: string, handle: string -> seq<U>): seq<U> {
    FlatMap(CompleteLines(s), handle)
  }

  /** One read step: the new complete lines come from the buffer plus the chunk. */
  lemma ChunkStep(read: string, chunk: string)
    ensures CompleteLines(read + chunk) == CompleteLines(read) + CompleteLines(Pending(read) + chunk)
    ensures Pending(read + chunk) == Pending(Pending(read) + chunk)
  {
    SplitAppend(read, chunk);
    PrefixAndLast(CompleteLines(read), Split(Pending(read) + chunk));
  }

  lemma PrefixAndLast<T>(x: seq<T>, t: seq<T>)
    requires t != []
    ensures (x + t)[..|x + t| - 1] == x + t[..|t| - 1]
    ensures (x + t)[|x + t| - 1] == t[|t| - 1]
  {
  }

  /** Text after the last newline, however long, produces nothing. */
  lemma UnterminatedTailIgnored<U>(s: string, tail: string, handle: string -> seq<U>)
    requires '\n' !in tail
    ensures Output(s + tail, handle) == Output(s, handle)
  {
    ChunkStep(s, tail);
    assert '\n' !in Pending(s) + tail;
    SplitWithoutNewline(Pending(s) + tail);
    assert CompleteLines(Pending(s) + tail) == [];
    assert CompleteLines(s + tail) == CompleteLines(s);
  }

  /** Every line followed by a newline. */
  function Terminated(lines: seq<string>): string {
    if lines == [] then "" else Terminated(lines[..|lines| - 1]) + lines[|lines| - 1] + "\n"
  }

  lemma SplitLine(l: string)
    requires '\n' !in l
    ensures Split(l + "\n") == [l, ""]
  {
    SplitWithoutNewline(l);
    SplitSnoc(l, '\n');
  }

  /** Newline-free lines, each terminated, split back into exactly those lines. */
  lemma {:induction false} TerminatedLines(lines: seq<string>)
    requires forall i :: 0 <= i < |lines| ==> '\n' !in lines[i]
    ensures CompleteLines(Terminated(lines)) == lines
    ensures Pending(Terminated(lines)) == ""
  {
    if lines != [] {
      var init := lines[..|lines| - 1];
      var l := lines[|lines| - 1];
      var t := Terminated(init);
      TerminatedLines(init);
      TerminatedSnoc(t, l);
      ChunkStep(t, l + "\n");
      SplitLine(l);
      assert CompleteLines(l + "\n") == [l] && Pending(l + "\n") == "";
      EmptyPrefix(l + "\n");
      Seqs.InitLast(lines);
    }
  }

  lemma TerminatedSnoc(t: string, l: string)
    ensures t + l + "\n" == t + (l + "\n")
  {
  }

  lemma EmptyPrefix(s: string)
    ensures "" + s == s
  {
  }
}
