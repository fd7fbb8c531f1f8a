/**
 * Splitting text into '\n'-delimited tokens the way a loop of
 * `std::getline(stream, token, '\n')` that skips empty tokens does.
 */
module Lineas {

  /** The pending token, pushed only when it is not empty. */
  function Flush(cur: string): seq<string> {
    if cur == [] then [] else [cur]
  }

  /**
   * The state after reading `s` one character at a time: the non-empty
   * tokens completed so far, and the token still being read.
   */
  function Scan(s: string): (seq<string>, string) {
    if s == [] then ([], [])
    else
      var p := Scan(s[..|s| - 1]);
      if s[|s| - 1] == '\n' then (p.0 + Flush(p.1), []) else (p.0, p.1 + [s[|s| - 1]])
  }

  /** Every non-empty token of `s`, in order; a last token without a newline counts too. */
  function Tokens(s: string): seq<string> {
    Scan(s).0 + Flush(Scan(s).1)
  }

  function Concat(ts: seq<string>): string {
    if ts == [] then [] else Concat(ts[..|ts| - 1]) + ts[|ts| - 1]
  }

  function RemoveNewlines(s: string): (r: string)
    ensures '\n' !in r
  {
    if s == [] then []
    else RemoveNewlines(s[..|s| - 1]) + (if s[|s| - 1] == '\n' then [] else [s[|s| - 1]])
  }

  predicate IsToken(t: string) {
    t != [] && '\n' !in t
  }

  lemma ConcatFlush(ts: seq<string>, cur: string)
    ensures Concat(ts + Flush(cur)) == Concat(ts) + cur
  {
    if cur == [] {
      assert ts + Flush(cur) == ts;
    } else {
      assert (ts + [cur])[..|ts|] == ts;
    }
  }

  lemma {:induction false} ScanInvariant(s: string)
    ensures forall k :: 0 <= k < |Scan(s).0| ==> IsToken(Scan(s).0[k])
    ensures '\n' !in Scan(s).1
    ensures Concat(Scan(s).0) + Scan(s).1 == RemoveNewlines(s)
  {
    if s != [] {
      var s', c := s[..|s| - 1], s[|s| - 1];
      var p := Scan(s');
      ScanInvariant(s');
      if c == '\n' {
        ConcatFlush(p.0, p.1);
        assert Scan(s) == (p.0 + Flush(p.1), []);
        assert RemoveNewlines(s) == RemoveNewlines(s');
      } else {
        assert Scan(s) == (p.0, p.1 + [c]);
        assert RemoveNewlines(s) == RemoveNewlines(s') + [c];
        assert Concat(p.0) + (p.1 + [c]) == (Concat(p.0) + p.1) + [c];
      }
    }
  }

  /** Every token is non-empty and newline-free, and together they are `s` without its newlines. */
  lemma TokensWellFormed(s: string)
    ensures forall k :: 0 <= k < |Tokens(s)| ==> IsToken(Tokens(s)[k])
    ensures Concat(Tokens(s)) == RemoveNewlines(s)
  {
    ScanInvariant(s);
    ConcatFlush(Scan(s).0, Scan(s).1);
  }

  /** Reading text that holds no newline only extends the pending token. */
  lemma {:induction false} ScanWithoutNewline(p: string, t: string)
    requires '\n' !in t
    ensures Scan(p + t) == (Scan(p).0, Scan(p).1 + t)
  {
    if t == [] {
      assert p + t == p && Scan(p).1 + t == Scan(p).1;
    } else {
      var t' := t[..|t| - 1];
      assert (p + t)[..|p + t| - 1] == p + t';
      assert (p + t)[|p + t| - 1] == t[|t| - 1];
      ScanWithoutNewline(p, t');
      assert Scan(p).1 + t' + [t[|t| - 1]] == Scan(p).1 + t;
    }
  }

  /** After a newline the scanner starts afresh: what follows is tokenised on its own. */
  lemma {:induction false} ScanAfterNewline(p: string, b: string)
    requires Scan(p).1 == []
    ensures Scan(p + b) == (Scan(p).0 + Scan(b).0, Scan(b).1)
  {
    if b == [] {
      assert p + b == p && Scan(p).0 + Scan(b).0 == Scan(p).0;
    } else {
      var b' := b[..|b| - 1];
      assert (p + b)[..|p + b| - 1] == p + b';
      assert (p + b)[|p + b| - 1] == b[|b| - 1];
      ScanAfterNewline(p, b');
      var q := Scan(b');
      assert Scan(p).0 + q.0 + Flush(q.1) == Scan(p).0 + (q.0 + Flush(q.1));
    }
  }

  /** Tokenising is compatible with cutting the text at a newline. */
  lemma TokensSplit(a: string, b: string)
    ensures Tokens(a + "\n" + b) == Tokens(a) + Tokens(b)
  {
    assert (a + "\n")[..|a|] == a;
    ScanAfterNewline(a + "\n", b);
  }

  /** A non-empty newline-free line is one token, whether or not it ends in a newline. */
  lemma TokensOfLine(t: string)
    requires IsToken(t)
    ensures Tokens(t) == [t]
    ensures Tokens(t + "\n") == [t]
  {
    ScanWithoutNewline([], t);
    assert [] + t == t;
    assert (t + "\n")[..|t|] == t;
  }

  /** A final token with no newline after it is still delivered, last. */
  lemma FinalTokenDelivered(a: string, b: string)
    requires IsToken(b)
    ensures Tokens(a + "\n" + b) == Tokens(a) + [b]
  {
    TokensSplit(a, b);
    TokensOfLine(b);
  }

  /** Appending one newline-terminated line adds exactly that line as the last token. */
  lemma ScanAppendLine(p: string, t: string)
    requires Scan(p).1 == []
    requires IsToken(t)
    ensures Scan(p + t + "\n") == (Scan(p).0 + [t], [])
  {
    TokensOfLine(t);
    assert (t + "\n")[..|t|] == t;
    assert Scan(t + "\n") == ([t], []);
    assert p + t + "\n" == p + (t + "\n");
    ScanAfterNewline(p, t + "\n");
  }

  function NewlineCount(s: string): nat {
    if s == [] then 0 else NewlineCount(s[..|s| - 1]) + (if s[|s| - 1] == '\n' then 1 else 0)
  }

  lemma {:induction false} NewlineCountAppend(a: string, b: string)
    ensures NewlineCount(a + b) == NewlineCount(a) + NewlineCount(b)
  {
    if b == [] {
      assert a + b == a;
    } else {
      var b' := b[..|b| - 1];
      assert (a + b)[..|a + b| - 1] == a + b';
      assert (a + b)[|a + b| - 1] == b[|b| - 1];
      NewlineCountAppend(a, b');
    }
  }

  lemma {:induction false} NewlineFree(s: string)
    requires '\n' !in s
    ensures NewlineCount(s) == 0
  {
    if s != [] {
      NewlineFree(s[..|s| - 1]);
    }
  }
}
