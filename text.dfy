/**
 * Text helpers of the two scrapers and their whitespace normaliser
 * `cleanString`.
 *
 * A `string` stands for a Go string: each character is one byte. The only
 * bytes these operations tell apart are ASCII ones (line feed, space and the
 * ASCII whitespace of `strings.TrimSpace`), and no byte of a multi-byte UTF-8
 * sequence is ASCII, so a non-ASCII character behaves like an opaque run of
 * non-space bytes.
 */
module Text {

  /** The ASCII whitespace bytes that Go's `strings.TrimSpace` removes. */
  predicate IsSpace(c: char) {
    c == ' ' || c == '\t' || c == '\n' || c == '\r' || c == '\U{B}' || c == '\U{C}'
  }

  // ---------------------------------------------------------------------
  // Library helpers: strings.Contains, strings.TrimSuffix, strings.Join(_, "")

  /** Go's `strings.Contains`: `sub` occurs somewhere in `s`. */
  predicate Contains(s: string, sub: string) {
    exists i | 0 <= i <= |s| - |sub| :: OccursAt(s, sub, i)
  }

  predicate OccursAt(s: string, sub: string, i: nat) {
    i + |sub| <= |s| && s[i..i + |sub|] == sub
  }

  /** Go's `strings.HasSuffix`. */
  predicate HasSuffix(s: string, suffix: string) {
    |suffix| <= |s| && s[|s| - |suffix|..] == suffix
  }

  /** Go's `strings.TrimSuffix`: removes one trailing `suffix`, if present. */
  function TrimSuffix(s: string, suffix: string): string {
    if HasSuffix(s, suffix) then s[..|s| - |suffix|] else s
  }

  /** Go's `strings.Join(xs, "")`. */
  function Concat(xs: seq<string>): string {
    if xs == [] then "" else xs[0] + Concat(xs[1..])
  }

  // ---------------------------------------------------------------------
  // Reference definition of cleanString, one pass at a time

  /** `s` without its line-feed bytes. */
  function DropNewlines(s: string): string {
    if s == [] then []
    else DropNewlines(s[..|s| - 1]) + (if s[|s| - 1] == '\n' then [] else [s[|s| - 1]])
  }

  /** Position `i` of `t` is a space that directly follows another space. */
  predicate SpaceAfterSpace(t: string, i: nat)
    requires i < |t|
  {
    0 < i && t[i - 1] == ' ' && t[i] == ' '
  }

  /** `t` with only the first space of every run of spaces kept. */
  function Squeeze(t: string): string {
    if t == [] then []
    else Squeeze(t[..|t| - 1]) + (if SpaceAfterSpace(t, |t| - 1) then [] else [t[|t| - 1]])
  }

  /** `s` without its leading whitespace. */
  function TrimLeft(s: string): string {
    if s != [] && IsSpace(s[0]) then TrimLeft(s[1..]) else s
  }

  /** `s` without its trailing whitespace. */
  function TrimRight(s: string): string {
    if s != [] && IsSpace(s[|s| - 1]) then TrimRight(s[..|s| - 1]) else s
  }

  /** Go's `strings.TrimSpace`, for ASCII whitespace. */
  function TrimSpace(s: string): string {
    TrimRight(TrimLeft(s))
  }

  // ---------------------------------------------------------------------
  // What a normalised string is

  predicate NoNewline(s: string) {
    forall i :: 0 <= i < |s| ==> s[i] != '\n'
  }

  predicate NoDoubleSpace(s: string) {
    forall i :: 0 < i < |s| ==> !(s[i - 1] == ' ' && s[i] == ' ')
  }

  predicate Trimmed(s: string) {
    s == [] || (!IsSpace(s[0]) && !IsSpace(s[|s| - 1]))
  }

  /** The shape of every string `cleanString` returns. */
  predicate Normalised(s: string) {
    NoNewline(s) && NoDoubleSpace(s) && Trimmed(s)
  }

  /** The non-whitespace bytes of `s`, in order. */
  function Visible(s: string): string {
    if s == [] then []
    else Visible(s[..|s| - 1]) + (if IsSpace(s[|s| - 1]) then [] else [s[|s| - 1]])
  }

  predicate EndsInSpace(t: string) {
    |t| > 0 && t[|t| - 1] == ' '
  }

  /**
   * `cleanString` of both scrapers: line feeds are deleted (not turned into
   * spaces), only the first space of each run is kept, the ends are trimmed.
   */
  function Clean(s: string): string {
    TrimSpace(Squeeze(DropNewlines(s)))
  }

  /** The loop of `cleanString`, with its one-bit `flag`. */
  method CleanString(s: string) returns (r: string)
    ensures r == Clean(s)
  {
    var flag := false;
    var kept: string := [];
    var i := 0;
    while i < |s|
      invariant 0 <= i <= |s|
      invariant kept == Squeeze(DropNewlines(s[..i]))
      invariant flag == EndsInSpace(DropNewlines(s[..i]))
    {
      var v := s[i];
      assert s[..i + 1] == s[..i] + [v];
      DropNewlinesSnoc(s[..i], v);
      if v != '\n' {
        SqueezeSnoc(DropNewlines(s[..i]), v);
        if !(v == ' ' && flag) {
          kept := kept + [v];
        }
        flag := v == ' ';
      } else {
        assert DropNewlines(s[..i + 1]) == DropNewlines(s[..i]) + [];
        assert DropNewlines(s[..i]) + [] == DropNewlines(s[..i]);
      }
      i := i + 1;
    }
    assert s[..|s|] == s;
    r := TrimSpace(kept);
  }

  // ---------------------------------------------------------------------
  // Lemmas about the passes

  lemma {:induction false} VisibleAppend(a: string, b: string)
    ensures Visible(a + b) == Visible(a) + Visible(b)
  {
    if b == [] {
      assert a + b == a;
    } else {
      assert (a + b)[..|a + b| - 1] == a + b[..|b| - 1];
      VisibleAppend(a, b[..|b| - 1]);
    }
  }

  lemma {:induction false} VisibleOfSpaces(s: string)
    requires forall i :: 0 <= i < |s| ==> IsSpace(s[i])
    ensures Visible(s) == []
  {
    if s != [] {
      VisibleOfSpaces(s[..|s| - 1]);
    }
  }

  /** One more byte at the end of the input of `DropNewlines`. */
  lemma {:induction false} DropNewlinesSnoc(p: string, c: char)
    ensures DropNewlines(p + [c]) == DropNewlines(p) + (if c == '\n' then [] else [c])
  {
  }

  /** One more byte at the end of the input of `Squeeze`. */
  lemma {:induction false} SqueezeSnoc(t: string, c: char)
    ensures Squeeze(t + [c]) == Squeeze(t) + (if EndsInSpace(t) && c == ' ' then [] else [c])
  {
  }

  lemma {:induction false} DropNewlinesNoNewline(s: string)
    ensures |DropNewlines(s)| <= |s|
    ensures NoNewline(DropNewlines(s))
  {
    if s != [] {
      DropNewlinesNoNewline(s[..|s| - 1]);
    }
  }

  lemma {:induction false} DropNewlinesVisible(s: string)
    ensures Visible(DropNewlines(s)) == Visible(s)
  {
    if s != [] {
      var p, c := s[..|s| - 1], s[|s| - 1];
      assert s == p + [c];
      DropNewlinesVisible(p);
      var tail: string := if c == '\n' then [] else [c];
      VisibleAppend(DropNewlines(p), tail);
      VisibleAppend(p, [c]);
    }
  }

  lemma {:induction false} DropNewlinesMultiset(s: string)
    ensures multiset(DropNewlines(s)) <= multiset(s)
  {
    if s != [] {
      var p, c := s[..|s| - 1], s[|s| - 1];
      assert s == p + [c];
      DropNewlinesMultiset(p);
    }
  }

  lemma {:induction false} DropNewlinesKeeps(s: string)
    requires NoNewline(s)
    ensures DropNewlines(s) == s
  {
    if s != [] {
      var p := s[..|s| - 1];
      assert NoNewline(p) by {
        forall i | 0 <= i < |p| ensures p[i] != '\n' { assert p[i] == s[i]; }
      }
      DropNewlinesKeeps(p);
      assert s == p + [s[|s| - 1]];
    }
  }

  /** The last byte survives squeezing (this is the flag of `cleanString`). */
  lemma {:induction false} SqueezeLast(t: string)
    ensures |Squeeze(t)| <= |t|
    ensures t != [] ==> Squeeze(t) != [] && Squeeze(t)[|Squeeze(t)| - 1] == t[|t| - 1]
  {
    if t != [] {
      var p := t[..|t| - 1];
      SqueezeLast(p);
      if SpaceAfterSpace(t, |t| - 1) {
        assert p[|p| - 1] == ' ';
      }
    }
  }

  lemma {:induction false} SqueezeNoDoubleSpace(t: string)
    ensures NoDoubleSpace(Squeeze(t))
  {
    if t != [] {
      var p, c := t[..|t| - 1], t[|t| - 1];
      SqueezeNoDoubleSpace(p);
      SqueezeLast(p);
      var sp := Squeeze(p);
      var tail: string := if SpaceAfterSpace(t, |t| - 1) then [] else [c];
      var st := sp + tail;
      assert Squeeze(t) == st;
      forall i | 0 < i < |st|
        ensures !(st[i - 1] == ' ' && st[i] == ' ')
      {
        if i < |sp| {
          assert st[i - 1] == sp[i - 1] && st[i] == sp[i];
        } else {
          assert st[i] == c && st[i - 1] == sp[|sp| - 1];
        }
      }
    }
  }

  lemma {:induction false} SqueezeNoNewline(t: string)
    requires NoNewline(t)
    ensures NoNewline(Squeeze(t))
  {
    if t != [] {
      var p := t[..|t| - 1];
      assert NoNewline(p) by {
        forall i | 0 <= i < |p| ensures p[i] != '\n' { assert p[i] == t[i]; }
      }
      SqueezeNoNewline(p);
    }
  }

  lemma {:induction false} SqueezeVisible(t: string)
    ensures Visible(Squeeze(t)) == Visible(t)
  {
    if t != [] {
      var p, c := t[..|t| - 1], t[|t| - 1];
      assert t == p + [c];
      SqueezeVisible(p);
      var tail: string := if SpaceAfterSpace(t, |t| - 1) then [] else [c];
      VisibleAppend(Squeeze(p), tail);
      VisibleAppend(p, [c]);
    }
  }

  lemma {:induction false} SqueezeMultiset(t: string)
    ensures multiset(Squeeze(t)) <= multiset(t)
  {
    if t != [] {
      var p, c := t[..|t| - 1], t[|t| - 1];
      assert t == p + [c];
      SqueezeMultiset(p);
    }
  }

  lemma {:induction false} SqueezeKeeps(t: string)
    requires NoDoubleSpace(t)
    ensures Squeeze(t) == t
  {
    if t != [] {
      var p := t[..|t| - 1];
      assert NoDoubleSpace(p) by {
        forall i | 0 < i < |p| ensures !(p[i - 1] == ' ' && p[i] == ' ') {
          assert p[i - 1] == t[i - 1] && p[i] == t[i];
        }
      }
      SqueezeKeeps(p);
      assert t == p + [t[|t| - 1]];
    }
  }

  /** `cleanString` gives "" exactly when its input is all whitespace. */
  lemma {:induction false} CleanBlankIff(s: string)
    ensures Clean(s) == [] <==> Visible(s) == []
  {
    CleanNormalises(s);
    if Clean(s) != [] {
      VisibleOfLeading(Clean(s));
    }
  }

  /** A string that starts with a non-whitespace byte has visible bytes. */
  lemma {:induction false} VisibleOfLeading(r: string)
    requires r != [] && !IsSpace(r[0])
    ensures Visible(r) != []
  {
    assert r == r[..1] + r[1..];
    VisibleAppend(r[..1], r[1..]);
    assert r[..1][..0] == [];
    assert Visible(r[..1]) == [r[0]];
  }

  /** `TrimLeft` cuts off a prefix made of whitespace, up to the first
      non-whitespace byte. */
  lemma {:induction false} TrimLeftCuts(s: string)
    ensures |TrimLeft(s)| <= |s| && TrimLeft(s) == s[|s| - |TrimLeft(s)|..]
    ensures TrimLeft(s) == [] || !IsSpace(TrimLeft(s)[0])
    ensures forall i :: 0 <= i < |s| - |TrimLeft(s)| ==> IsSpace(s[i])
  {
    if s != [] && IsSpace(s[0]) {
      var t, r := s[1..], TrimLeft(s);
      assert r == TrimLeft(t);
      TrimLeftCuts(t);
      assert s[|s| - |r|..] == t[|t| - |r|..];
      forall i | 0 <= i < |s| - |r| ensures IsSpace(s[i]) {
        if i > 0 {
          assert s[i] == t[i - 1];
        }
      }
    }
  }

  /** `TrimRight` cuts off a suffix made of whitespace, back to the last
      non-whitespace byte. */
  lemma {:induction false} TrimRightCuts(s: string)
    ensures |TrimRight(s)| <= |s| && TrimRight(s) == s[..|TrimRight(s)|]
    ensures TrimRight(s) == [] || !IsSpace(TrimRight(s)[|TrimRight(s)| - 1])
    ensures forall i :: |TrimRight(s)| <= i < |s| ==> IsSpace(s[i])
  {
    if s != [] && IsSpace(s[|s| - 1]) {
      var t, r := s[..|s| - 1], TrimRight(s);
      assert r == TrimRight(t);
      TrimRightCuts(t);
      assert s[..|r|] == t[..|r|];
      forall i | |r| <= i < |s| ensures IsSpace(s[i]) {
        if i < |t| {
          assert s[i] == t[i];
        }
      }
    }
  }

  /** `TrimSpace(u)` is `u` with a run of whitespace cut off at each end. */
  lemma {:induction false} TrimSpaceSplit(u: string) returns (head: string, rest: string)
    ensures u == head + TrimSpace(u) + rest
    ensures forall i :: 0 <= i < |head| ==> IsSpace(head[i])
    ensures forall i :: 0 <= i < |rest| ==> IsSpace(rest[i])
  {
    var l := TrimLeft(u);
    var r := TrimRight(l);
    TrimLeftCuts(u);
    TrimRightCuts(l);
    head, rest := u[..|u| - |l|], l[|r|..];
    assert u == head + l;
    assert l == r + rest;
    assert u == head + r + rest;
    forall i | 0 <= i < |head| ensures IsSpace(head[i]) {
      assert head[i] == u[i];
    }
    forall i | 0 <= i < |rest| ensures IsSpace(rest[i]) {
      assert rest[i] == l[|r| + i];
    }
  }

  lemma {:induction false} TrimSpaceVisible(u: string)
    ensures Visible(TrimSpace(u)) == Visible(u)
  {
    var head, rest := TrimSpaceSplit(u);
    VisibleOfSpaces(head);
    VisibleOfSpaces(rest);
    VisibleAppend(head, TrimSpace(u));
    VisibleAppend(head + TrimSpace(u), rest);
  }

  lemma {:induction false} TrimSpaceMultiset(u: string)
    ensures multiset(TrimSpace(u)) <= multiset(u)
    ensures |TrimSpace(u)| <= |u|
  {
    var head, rest := TrimSpaceSplit(u);
    assert multiset(u) == multiset(head) + multiset(TrimSpace(u)) + multiset(rest);
  }

  /** Trimming keeps the absence of line feeds and of doubled spaces. */
  lemma {:induction false} TrimSpaceKeepsShape(u: string)
    ensures NoNewline(u) ==> NoNewline(TrimSpace(u))
    ensures NoDoubleSpace(u) ==> NoDoubleSpace(TrimSpace(u))
  {
    var head, rest := TrimSpaceSplit(u);
    var r := TrimSpace(u);
    assert forall i :: 0 <= i < |r| ==> r[i] == u[|head| + i];
  }

  lemma {:induction false} TrimSpaceTrimmed(u: string)
    ensures Trimmed(TrimSpace(u))
    ensures Trimmed(u) ==> TrimSpace(u) == u
  {
    TrimLeftCuts(u);
    TrimRightCuts(TrimLeft(u));
  }

  // ---------------------------------------------------------------------
  // The promises of cleanString

  /** The result of `cleanString` is normalised, keeps every non-whitespace
      byte of the input in order, and only ever deletes bytes. */
  lemma {:induction false} CleanNormalises(s: string)
    ensures Normalised(Clean(s))
    ensures Visible(Clean(s)) == Visible(s)
    ensures multiset(Clean(s)) <= multiset(s)
  {
    var t := DropNewlines(s);
    var u := Squeeze(t);
    DropNewlinesNoNewline(s);
    DropNewlinesVisible(s);
    DropNewlinesMultiset(s);
    SqueezeNoDoubleSpace(t);
    SqueezeNoNewline(t);
    SqueezeVisible(t);
    SqueezeMultiset(t);
    TrimSpaceKeepsShape(u);
    TrimSpaceTrimmed(u);
    TrimSpaceVisible(u);
    TrimSpaceMultiset(u);
  }

  /** The strings `cleanString` leaves unchanged are exactly the normalised ones. */
  lemma {:induction false} CleanFixedPoints(s: string)
    ensures Clean(s) == s <==> Normalised(s)
  {
    CleanNormalises(s);
    if Normalised(s) {
      DropNewlinesKeeps(s);
      SqueezeKeeps(s);
      TrimSpaceTrimmed(s);
    }
  }

  /** The empty string stays empty. */
  lemma {:induction false} CleanEmpty()
    ensures Clean([]) == []
  {
  }

  /** `cleanString` is idempotent. */
  lemma {:induction false} CleanIdempotent(s: string)
    ensures Clean(Clean(s)) == Clean(s)
  {
    CleanNormalises(s);
    CleanFixedPoints(Clean(s));
  }

  /** `cleanString` never makes a string longer and never adds a space:
      a line feed is deleted, not turned into a space. */
  lemma {:induction false} CleanOnlyDeletes(s: string)
    ensures |Clean(s)| <= |s|
    ensures multiset(Clean(s))[' '] <= multiset(s)[' ']
  {
    var t := DropNewlines(s);
    DropNewlinesNoNewline(s);
    SqueezeLast(t);
    TrimSpaceMultiset(Squeeze(t));
    CleanNormalises(s);
  }

  /** `DropNewlines` works byte by byte, so it distributes over `+`. */
  lemma {:induction false} DropNewlinesAppend(p: string, q: string)
    ensures DropNewlines(p + q) == DropNewlines(p) + DropNewlines(q)
    decreases |q|
  {
    if q == [] {
      assert p + q == p;
      assert DropNewlines(p) + [] == DropNewlines(p);
    } else {
      var q0, c := q[..|q| - 1], q[|q| - 1];
      assert q == q0 + [c];
      assert p + q == (p + q0) + [c];
      DropNewlinesSnoc(p + q0, c);
      DropNewlinesSnoc(q0, c);
      DropNewlinesAppend(p, q0);
    }
  }

  /** Line feeds are deleted, not turned into spaces: a line feed anywhere
      in the input leaves the result as if it were not there, so the bytes
      on either side of it end up adjacent ("a\nb" becomes "ab"). */
  lemma {:induction false} CleanJoinsAcrossNewline(p: string, q: string)
    ensures Clean(p + ['\n'] + q) == Clean(p + q)
  {
    DropNewlinesAppend(p + ['\n'], q);
    DropNewlinesAppend(p, q);
    DropNewlinesSnoc(p, '\n');
    assert DropNewlines(p) + [] == DropNewlines(p);
  }

  /** A second space right after a space is dropped by `Squeeze`, whatever
      comes before or after the pair. */
  lemma {:induction false} SqueezeDoubleSpace(t: string, u: string)
    ensures Squeeze(t + [' ', ' '] + u) == Squeeze(t + [' '] + u)
    decreases |u|
  {
    if u == [] {
      assert t + [' ', ' '] + u == (t + [' ']) + [' '];
      assert t + [' '] + u == t + [' '];
      SqueezeSnoc(t + [' '], ' ');
      assert Squeeze(t + [' ']) + [] == Squeeze(t + [' ']);
    } else {
      var u0, c := u[..|u| - 1], u[|u| - 1];
      var x, y := t + [' ', ' '] + u0, t + [' '] + u0;
      assert u == u0 + [c];
      assert t + [' ', ' '] + u == x + [c];
      assert t + [' '] + u == y + [c];
      assert x[|x| - 1] == y[|y| - 1];
      SqueezeSnoc(x, c);
      SqueezeSnoc(y, c);
      SqueezeDoubleSpace(t, u0);
    }
  }

  /** Of two adjacent spaces anywhere in the input, the second one changes
      nothing. */
  lemma {:induction false} CleanDoubleSpace(p: string, q: string)
    ensures Clean(p + [' ', ' '] + q) == Clean(p + [' '] + q)
  {
    var dp, dq := DropNewlines(p), DropNewlines(q);
    DropNewlinesAppend(p + [' ', ' '], q);
    DropNewlinesAppend(p, [' ', ' ']);
    DropNewlinesAppend(p + [' '], q);
    DropNewlinesAppend(p, [' ']);
    DropNewlinesSnoc([], ' ');
    assert [] + [' '] == [' '];
    DropNewlinesSnoc([' '], ' ');
    assert [' '] + [' '] == [' ', ' '];
    assert DropNewlines(p + [' ', ' '] + q) == dp + [' ', ' '] + dq;
    assert DropNewlines(p + [' '] + q) == dp + [' '] + dq;
    SqueezeDoubleSpace(dp, dq);
  }

  /** Any run of spaces and line feeds with at least one space in it,
      between whatever text, cleans as a single space would ("a\n\n  b"
      becomes "a b"). */
  lemma {:induction false} CleanCollapsesRun(p: string, r: string, q: string)
    requires forall i :: 0 <= i < |r| ==> r[i] == ' ' || r[i] == '\n'
    requires exists i :: 0 <= i < |r| && r[i] == ' '
    ensures Clean(p + r + q) == Clean(p + [' '] + q)
    decreases |r|
  {
    var i :| 0 <= i < |r| && r[i] == ' ';
    if r[0] == '\n' {
      assert p + r + q == p + ['\n'] + (r[1..] + q);
      CleanJoinsAcrossNewline(p, r[1..] + q);
      assert p + (r[1..] + q) == p + r[1..] + q;
      assert r[1..][i - 1] == ' ';
      CleanCollapsesRun(p, r[1..], q);
    } else if |r| > 1 {
      var rest := [' '] + r[2..];
      assert rest[0] == ' ';
      if r[1] == ' ' {
        assert p + r + q == p + [' ', ' '] + (r[2..] + q);
        CleanDoubleSpace(p, r[2..] + q);
      } else {
        assert p + r + q == (p + [' ']) + ['\n'] + (r[2..] + q);
        CleanJoinsAcrossNewline(p + [' '], r[2..] + q);
      }
      assert p + [' '] + (r[2..] + q) == p + rest + q;
      CleanCollapsesRun(p, rest, q);
    } else {
      assert r == [' '];
    }
  }

  /** Surrounding spaces are trimmed ("  x  " becomes "x"). */
  lemma {:induction false} CleanTrims(x: char)
    requires !IsSpace(x)
    ensures Clean([' ', ' ', x, ' ', ' ']) == [x]
  {
    DropNewlinesKeeps([' ', ' ', x, ' ', ' ']);
    PaddingSqueezes(x);
    PaddingTrims(x);
  }

  lemma {:induction false} PaddingSqueezes(x: char)
    requires !IsSpace(x)
    ensures Squeeze([' ', ' ', x, ' ', ' ']) == [' ', x, ' ']
  {
    SqueezeSnoc([], ' ');
    assert [] + [' '] == [' '];
    SqueezeSnoc([' '], ' ');
    assert [' '] + [' '] == [' ', ' '];
    SqueezeSnoc([' ', ' '], x);
    assert [' ', ' '] + [x] == [' ', ' ', x];
    SqueezeSnoc([' ', ' ', x], ' ');
    assert [' ', ' ', x] + [' '] == [' ', ' ', x, ' '];
    SqueezeSnoc([' ', ' ', x, ' '], ' ');
    assert [' ', ' ', x, ' '] + [' '] == [' ', ' ', x, ' ', ' '];
  }

  lemma {:induction false} PaddingTrims(x: char)
    requires !IsSpace(x)
    ensures TrimSpace([' ', x, ' ']) == [x]
  {
    assert [' ', x, ' '][1..] == [x, ' '];
    assert TrimLeft([' ', x, ' ']) == [x, ' '];
    assert [x, ' '][..1] == [x];
    assert TrimRight([x, ' ']) == TrimRight([x]) == [x];
  }
}
