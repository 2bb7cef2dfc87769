/** Files as newline-terminated lines. */
module Lines {
  /** Length of the first newline-terminated line, or of everything when there is no newline. */
  function LineEnd<T(==)>(data: seq<T>, nl: T): (n: nat)
    requires |data| > 0
    ensures 0 < n <= |data|
    ensures forall k :: 0 <= k < n - 1 ==> data[k] != nl
    ensures n < |data| ==> data[n - 1] == nl
  {
    if data[0] == nl || |data| == 1 then 1 else 1 + LineEnd(data[1..], nl)
  }

  function SplitLines<T(==)>(data: seq<T>, nl: T): seq<seq<T>> {
    if data == [] then [] else [data[..LineEnd(data, nl)]] + SplitLines(data[LineEnd(data, nl)..], nl)
  }

  function Join<T>(lines: seq<seq<T>>): seq<T> {
    if lines == [] then [] else lines[0] + Join(lines[1..])
  }

  /** handle.readline(limit): up to a newline, the limit, or the end of the file. */
  function ReadLine<T(==)>(data: seq<T>, limit: nat, nl: T): seq<T> {
    if data == [] then [] else if LineEnd(data, nl) <= limit then data[..LineEnd(data, nl)] else data[..limit]
  }

  /** SplitLines loses and reorders nothing. */
  lemma {:induction false} SplitLinesJoin<T>(data: seq<T>, nl: T)
    ensures Join(SplitLines(data, nl)) == data
  {
    if data != [] {
      var n := LineEnd(data, nl);
      SplitLinesJoin(data[n..], nl);
      assert data == data[..n] + data[n..];
    }
  }

  /** One newline, at the very end; the last line of a file may do without. */
  predicate IsLine<T(==)>(line: seq<T>, last: bool, nl: T) {
    && 0 < |line|
    && (forall k :: 0 <= k < |line| - 1 ==> line[k] != nl)
    && (last || line[|line| - 1] == nl)
  }

  /** SplitLines is the newline split. */
  lemma {:induction false} SplitLinesAreLines<T>(data: seq<T>, nl: T)
    ensures forall i :: 0 <= i < |SplitLines(data, nl)| ==>
      IsLine(SplitLines(data, nl)[i], i == |SplitLines(data, nl)| - 1, nl)
  {
    if data != [] {
      var n := LineEnd(data, nl);
      var rest := SplitLines(data[n..], nl);
      SplitLinesAreLines(data[n..], nl);
      assert IsLine(data[..n], rest == [], nl);
      assert forall i :: 0 < i <= |rest| ==> SplitLines(data, nl)[i] == rest[i - 1];
    }
  }

  lemma {:induction false} LineEndOfSuffix<T>(data: seq<T>, k: nat, nl: T)
    requires |data| > 0 && k < LineEnd(data, nl)
    ensures LineEnd(data[k..], nl) == LineEnd(data, nl) - k
  {
    if k > 0 {
      LineEndOfSuffix(data[1..], k - 1, nl);
      assert data[k..] == data[1..][k - 1..];
    }
  }

  /** Lines that could have come from splitting one text. */
  predicate AreLines<T(==)>(lines: seq<seq<T>>, nl: T) {
    forall i :: 0 <= i < |lines| ==> IsLine(lines[i], i == |lines| - 1, nl)
  }

  lemma {:induction false} LineEndIs<T>(data: seq<T>, n: nat, nl: T)
    requires 0 < n <= |data| && IsLine(data[..n], n == |data|, nl)
    ensures LineEnd(data, nl) == n
  {
    if n > 1 {
      assert data[..n][0] == data[0];
      assert data[1..][..n - 1] == data[..n][1..];
      LineEndIs(data[1..], n - 1, nl);
    } else {
      assert data[..n][0] == data[0];
    }
  }

  /** Splitting takes joined lines apart again. */
  lemma {:induction false} JoinSplits<T>(lines: seq<seq<T>>, nl: T)
    requires AreLines(lines, nl)
    ensures SplitLines(Join(lines), nl) == lines
  {
    if lines != [] {
      var data := Join(lines);
      var n := |lines[0]|;
      assert IsLine(lines[0], 0 == |lines| - 1, nl);
      assert data[..n] == lines[0] && data[n..] == Join(lines[1..]);
      if |lines| == 1 { assert Join(lines[1..]) == []; }
      LineEndIs(data, n, nl);
      forall i | 0 <= i < |lines| - 1 ensures IsLine(lines[1..][i], i == |lines[1..]| - 1, nl) {
        assert IsLine(lines[i + 1], i + 1 == |lines| - 1, nl);
      }
      JoinSplits(lines[1..], nl);
    }
  }

  lemma {:induction false} JoinOfConcat<T>(a: seq<seq<T>>, b: seq<seq<T>>)
    ensures Join(a + b) == Join(a) + Join(b)
  {
    if a == [] {
      assert a + b == b;
    } else {
      JoinOfConcat(a[1..], b);
      assert (a + b)[1..] == a[1..] + b;
      assert Join(a + b) == a[0] + (Join(a[1..]) + Join(b));
    }
  }
}
