/**
 * The first log entry of triple.c: a fixed-size C character buffer filled
 * by successive snprintf calls, each appending at the current strlen. The
 * result is the longest prefix of the full text that leaves room for the
 * terminating NUL.
 */
module TripleLog {
  import opened Fewbody

  const Header: string := "  command line:"

  /** A C string cannot hold the NUL character. */
  predicate NoNul(s: string)
  {
    forall k :: 0 <= k < |s| ==> s[k] != '\0'
  }

  /** " argv[0] argv[1] ..." */
  function JoinArgs(argv: seq<string>): string
  {
    if argv == [] then "" else JoinArgs(argv[..|argv| - 1]) + " " + argv[|argv| - 1]
  }

  /** The text the builder would write into an unbounded buffer. */
  function LogText(argv: seq<string>): string
  {
    Header + JoinArgs(argv) + "\n"
  }

  /** The longest prefix of `s` of length at most `n`. */
  function Truncate(s: string, n: nat): (r: string)
    ensures |r| == if |s| <= n then |s| else n
    ensures r == s[..|r|]
  {
    if |s| <= n then s else s[..n]
  }

  /** The buffer holds the C string `s`: its characters, then a NUL. */
  ghost predicate Holds(buf: array<char>, s: string)
    reads buf
  {
    HoldsText(buf[..], s)
  }

  /** strlen: the index of the first NUL. */
  method Strlen(buf: array<char>) returns (n: nat)
    requires exists k :: 0 <= k < buf.Length && buf[k] == '\0'
    ensures n < buf.Length && buf[n] == '\0'
    ensures forall k :: 0 <= k < n ==> buf[k] != '\0'
  {
    n := 0;
    while buf[n] != '\0'
      invariant n < buf.Length
      invariant forall k :: 0 <= k < n ==> buf[k] != '\0'
      invariant exists k :: n <= k < buf.Length && buf[k] == '\0'
      decreases buf.Length - n
    {
      n := n + 1;
    }
  }

  /**
   * snprintf(&buf[off], size, "%s", s): at most size-1 characters of `s`,
   * then a NUL, written from `off`; everything outside is left alone.
   */
  method Snprintf(buf: array<char>, off: nat, size: nat, s: string)
    requires 1 <= size && off + size <= buf.Length
    modifies buf
    ensures buf[off..off + |Truncate(s, size - 1)|] == Truncate(s, size - 1)
    ensures buf[off + |Truncate(s, size - 1)|] == '\0'
    ensures forall k :: 0 <= k < buf.Length && !(off <= k <= off + |Truncate(s, size - 1)|) ==> buf[k] == old(buf[k])
  {
    var w := Truncate(s, size - 1);
    var i := 0;
    while i < |w|
      invariant 0 <= i <= |w|
      invariant buf[off..off + i] == w[..i]
      invariant forall k :: 0 <= k < buf.Length && !(off <= k < off + i) ==> buf[k] == old(buf[k])
    {
      buf[off + i] := w[i];
      i := i + 1;
    }
    buf[off + |w|] := '\0';
  }

  /** Appending a truncated piece after a short prefix truncates the whole. */
  lemma AppendTruncated(w: string, s: string, n: nat)
    requires |w| <= n
    ensures w + Truncate(s, n - |w|) == Truncate(w + s, n)
  {
    if |w + s| > n {
      assert (w + s)[..n] == w + s[..n - |w|];
    }
  }

  /** Truncating twice to the same bound is truncating once. */
  lemma {:induction false} TruncateAppend(a: string, b: string, n: nat)
    ensures Truncate(Truncate(a, n) + b, n) == Truncate(a + b, n)
  {
    if |a| > n {
      assert (a[..n] + b)[..n] == a[..n];
      assert (a + b)[..n] == a[..n];
    }
  }

  lemma NoNulConcat(a: string, b: string)
    requires NoNul(a) && NoNul(b)
    ensures NoNul(a + b)
  {
    forall k | 0 <= k < |a + b|
      ensures (a + b)[k] != '\0'
    {
      if k >= |a| {
        assert (a + b)[k] == b[k - |a|];
      }
    }
  }

  /** The buffer contents `b` hold the C string `s`: its characters, then a NUL. */
  predicate HoldsText(b: seq<char>, s: string)
  {
    |s| < |b| && b[..|s|] == s && b[|s|] == '\0'
  }

  /** Writing `tail` and a NUL right after the held `w`, keeping `w`, holds w + tail. */
  lemma Splice(before: seq<char>, after: seq<char>, w: string, tail: string)
    requires HoldsText(before, w) && |w| + |tail| < |after|
    requires forall k :: 0 <= k < |w| ==> after[k] == before[k]
    requires after[|w|..|w| + |tail|] == tail && after[|w| + |tail|] == '\0'
    ensures HoldsText(after, w + tail)
  {
    assert after[..|w|] == before[..|w|];
    assert after[..|w| + |tail|] == after[..|w|] + after[|w|..|w| + |tail|];
  }

  /** The truncated text followed by the piece truncated to the room left is the truncated whole. */
  lemma {:induction false} TruncateStep(text: string, piece: string, n: nat)
    ensures Truncate(text, n) + Truncate(piece, n - |Truncate(text, n)|) == Truncate(text + piece, n)
  {
    AppendTruncated(Truncate(text, n), piece, n);
    TruncateAppend(text, piece, n);
  }

  /** The first NUL of a buffer holding the NUL-free `w` is at |w|. */
  method StrlenOfHeld(buf: array<char>, ghost w: string) returns (len: nat)
    requires NoNul(w) && Holds(buf, w)
    ensures len == |w|
  {
    assert forall k :: 0 <= k < |w| ==> buf[k] != '\0' by {
      forall k | 0 <= k < |w| ensures buf[k] != '\0' {
        assert buf[..|w|][k] == buf[k];
      }
    }
    len := Strlen(buf);
  }

  /** Appending one piece, as one snprintf at strlen, to a buffer holding a truncated text. */
  method AppendPiece(buf: array<char>, ghost text: string, piece: string)
    requires buf.Length >= 1
    requires NoNul(text) && NoNul(piece)
    requires Holds(buf, Truncate(text, buf.Length - 1))
    modifies buf
    ensures Holds(buf, Truncate(text + piece, buf.Length - 1))
  {
    ghost var w := Truncate(text, buf.Length - 1);
    ghost var before := buf[..];
    var len := StrlenOfHeld(buf, w);
    Snprintf(buf, len, buf.Length - len, piece);
    ghost var tail := Truncate(piece, buf.Length - len - 1);
    assert buf[..][len..len + |tail|] == tail;
    Splice(before, buf[..], w, tail);
    TruncateStep(text, piece, buf.Length - 1);
  }

  /** One more argument extends the joined text by " argv[i]", still free of NUL. */
  lemma {:induction false} JoinArgsStep(prefix: string, argv: seq<string>, i: nat)
    requires i < |argv| && NoNul(argv[i])
    requires NoNul(prefix + JoinArgs(argv[..i]))
    ensures prefix + JoinArgs(argv[..i]) + (" " + argv[i]) == prefix + JoinArgs(argv[..i + 1])
    ensures NoNul(prefix + JoinArgs(argv[..i + 1]))
  {
    assert argv[..i + 1][..i] == argv[..i];
    NoNulConcat(" ", argv[i]);
    NoNulConcat(prefix + JoinArgs(argv[..i]), " " + argv[i]);
  }

  /** The loop of the builder: " argv[i]" appended for every argument, in order. */
  method AppendArgs(buf: array<char>, ghost prefix: string, argv: seq<string>)
    requires buf.Length >= 1
    requires NoNul(prefix) && forall i :: 0 <= i < |argv| ==> NoNul(argv[i])
    requires Holds(buf, Truncate(prefix, buf.Length - 1))
    modifies buf
    ensures Holds(buf, Truncate(prefix + JoinArgs(argv), buf.Length - 1))
    ensures NoNul(prefix + JoinArgs(argv))
  {
    assert prefix + JoinArgs(argv[..0]) == prefix;
    for i := 0 to |argv|
      invariant Holds(buf, Truncate(prefix + JoinArgs(argv[..i]), buf.Length - 1))
      invariant NoNul(prefix + JoinArgs(argv[..i]))
    {
      AppendPiece(buf, prefix + JoinArgs(argv[..i]), " " + argv[i]);
      JoinArgsStep(prefix, argv, i);
    }
    assert argv[..|argv|] == argv;
  }

  /**
   * The builder in main: the header, then " argv[i]" for every argument,
   * then a newline, each appended at the current end of the C string.
   */
  method BuildFirstLogEntry(buf: array<char>, argv: seq<string>)
    requires buf.Length == MaxLogEntryLength
    requires forall i :: 0 <= i < |argv| ==> NoNul(argv[i])
    modifies buf
    ensures Holds(buf, Truncate(LogText(argv), buf.Length - 1))
  {
    Snprintf(buf, 0, buf.Length, Header);
    AppendArgs(buf, Header, argv);
    AppendPiece(buf, Header + JoinArgs(argv), "\n");
  }

  /** When the whole text fits, the entry is exactly the text. */
  lemma WholeTextFits(argv: seq<string>)
    requires |LogText(argv)| <= MaxLogEntryLength - 1
    ensures Truncate(LogText(argv), MaxLogEntryLength - 1) == LogText(argv)
  {
  }
}
