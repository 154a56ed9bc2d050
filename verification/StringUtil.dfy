/** Splitting and trimming of the lines of the IP data file. */
module StringUtil {

  predicate IsSpace(c: char) {
    c == ' ' || c == '\t' || c == '\n' || c == '\r' || c == '\U{000B}' || c == '\U{000C}'
  }

  /** The blank, and the control characters from tab to carriage return. */
  lemma SpaceChars(c: char)
    ensures IsSpace(c) <==> c as int == 32 || 9 <= c as int <= 13
  {
  }

  // ----- split -----

  predicate Free(s: string, delim: string) {
    forall i :: 0 <= i < |s| ==> s[i] !in delim
  }

  /** std::string::find_first_of: the first delimiter at or after `start`, or the length when there is none. */
  method FindFirstOf(s: string, delim: string, start: nat) returns (index: nat)
    requires start <= |s|
    ensures start <= index <= |s| && Free(s[start..index], delim)
    ensures index < |s| ==> s[index] in delim
  {
    index := start;
    while index < |s| && s[index] !in delim
      invariant start <= index <= |s|
      invariant forall i :: start <= i < index ==> s[i] !in delim
    {
      index := index + 1;
    }
  }

  /** The delimiters of a string, in order. */
  function Seps(s: string, delim: string): string {
    if s == "" then "" else (if s[0] in delim then [s[0]] else "") + Seps(s[1..], delim)
  }

  /** Parts with separators between them. */
  function Weave(parts: seq<string>, seps: string): string
    requires |parts| == |seps| + 1
  {
    if |seps| == 0 then parts[0] else parts[0] + [seps[0]] + Weave(parts[1..], seps[1..])
  }

  predicate AllFree(parts: seq<string>, delim: string) {
    forall k :: 0 <= k < |parts| ==> Free(parts[k], delim)
  }

  lemma {:induction false} SepsConcat(a: string, b: string, delim: string)
    ensures Seps(a + b, delim) == Seps(a, delim) + Seps(b, delim)
  {
    if a == "" {
      assert a + b == b;
    } else {
      var first := if a[0] in delim then [a[0]] else "";
      assert (a + b)[0] == a[0] && (a + b)[1..] == a[1..] + b;
      assert Seps(a + b, delim) == first + Seps(a[1..] + b, delim);
      SepsConcat(a[1..], b, delim);
      assert first + (Seps(a[1..], delim) + Seps(b, delim)) == (first + Seps(a[1..], delim)) + Seps(b, delim);
    }
  }

  lemma {:induction false} SepsOfFree(s: string, delim: string)
    requires Free(s, delim)
    ensures Seps(s, delim) == ""
  {
    if s != "" {
      assert forall i :: 0 <= i < |s[1..]| ==> s[1..][i] == s[i + 1];
      SepsOfFree(s[1..], delim);
    }
  }

  lemma {:induction false} WeaveSnoc(parts: seq<string>, seps: string, part: string, sep: char)
    requires |parts| == |seps| + 1
    ensures Weave(parts + [part], seps + [sep]) == Weave(parts, seps) + [sep] + part
  {
    if |seps| == 0 {
      assert parts == [parts[0]];
      assert (parts + [part])[1..] == [part];
      assert (seps + [sep])[1..] == "";
    } else {
      assert (parts + [part])[1..] == parts[1..] + [part];
      assert (seps + [sep])[1..] == seps[1..] + [sep];
      WeaveSnoc(parts[1..], seps[1..], part, sep);
      assert Weave(parts + [part], seps + [sep]) ==
        parts[0] + [seps[0]] + (Weave(parts[1..], seps[1..]) + [sep] + part);
    }
  }

  /** One round of the loop: up to and including the next delimiter. */
  lemma Advance(s: string, last: nat, index: nat, delim: string)
    requires last <= index < |s| && Free(s[last..index], delim) && s[index] in delim
    ensures s[..index + 1] == s[..last] + s[last..index] + [s[index]]
    ensures Seps(s[..index + 1], delim) == Seps(s[..last], delim) + [s[index]]
  {
    var part := s[last..index];
    assert s[..index + 1] == s[..last] + part + [s[index]];
    SepsConcat(s[..last] + part, [s[index]], delim);
    SepsConcat(s[..last], part, delim);
    SepsOfFree(part, delim);
    assert Seps([s[index]], delim) == [s[index]];
  }

  lemma Finish(s: string, last: nat, delim: string)
    requires last <= |s| && Free(s[last..|s|], delim)
    ensures s == s[..last] + s[last..]
    ensures Seps(s, delim) == Seps(s[..last], delim)
  {
    assert s == s[..last] + s[last..] && s[last..] == s[last..|s|];
    SepsConcat(s[..last], s[last..], delim);
    SepsOfFree(s[last..], delim);
  }

  /** Parts each followed by its separator. */
  ghost predicate Woven(parts: seq<string>, seps: string, s: string) {
    |parts| == |seps| && Weave(parts + [""], seps) == s
  }

  lemma {:induction false} WeaveLast(parts: seq<string>, seps: string, rest: string)
    requires |parts| == |seps|
    ensures Weave(parts + [rest], seps) == Weave(parts + [""], seps) + rest
  {
    if |seps| == 0 {
      assert parts + [rest] == [rest] && parts + [""] == [""];
    } else {
      assert (parts + [rest])[1..] == parts[1..] + [rest] && (parts + [""])[1..] == parts[1..] + [""];
      WeaveLast(parts[1..], seps[1..], rest);
      assert Weave(parts + [rest], seps) == parts[0] + [seps[0]] + (Weave(parts[1..] + [""], seps[1..]) + rest);
    }
  }

  lemma WovenLast(parts: seq<string>, seps: string, s: string, rest: string)
    requires Woven(parts, seps, s)
    ensures Weave(parts + [rest], seps) == s + rest
  {
    WeaveLast(parts, seps, rest);
  }

  lemma WovenSnoc(parts: seq<string>, seps: string, s: string, part: string, sep: char)
    requires Woven(parts, seps, s)
    ensures Woven(parts + [part], seps + [sep], s + part + [sep])
  {
    WovenLast(parts, seps, s, part);
    WeaveSnoc(parts + [part], seps, "", sep);
    assert s + part + [sep] + "" == s + part + [sep];
  }

  /** The parts are delimiter-free, there is one more of them than there are delimiters, and woven with those delimiters they
      give back the string. */
  ghost predicate IsSplit(s: string, delim: string, parts: seq<string>) {
    AllFree(parts, delim) && |parts| == |Seps(s, delim)| + 1 && Weave(parts, Seps(s, delim)) == s
  }

  /** The parts before position `last` have been split off. */
  ghost predicate SplitOff(s: string, delim: string, last: nat, parts: seq<string>) {
    last <= |s| && AllFree(parts, delim) && Woven(parts, Seps(s[..last], delim), s[..last])
  }

  lemma SplitStart(s: string, delim: string)
    ensures SplitOff(s, delim, 0, [])
  {
    assert s[..0] == "" && [] + [""] == [""];
  }

  lemma SplitNext(s: string, delim: string, last: nat, index: nat, parts: seq<string>)
    requires SplitOff(s, delim, last, parts)
    requires last <= index < |s| && Free(s[last..index], delim) && s[index] in delim
    ensures SplitOff(s, delim, index + 1, parts + [s[last..index]])
  {
    hide Weave, Seps, Woven, Free;
    Advance(s, last, index, delim);
    WovenSnoc(parts, Seps(s[..last], delim), s[..last], s[last..index], s[index]);
  }

  lemma SplitEnd(s: string, delim: string, last: nat, parts: seq<string>)
    requires SplitOff(s, delim, last, parts) && Free(s[last..|s|], delim)
    ensures IsSplit(s, delim, parts + [s[last..]])
  {
    hide Weave, Seps, Free;
    assert s[last..] == s[last..|s|];
    Finish(s, last, delim);
    WovenLast(parts, Seps(s[..last], delim), s[..last], s[last..]);
  }

  /** Splits at every delimiter and keeps empty parts. */
  method Split(s: string, delim: string) returns (parts: seq<string>)
    ensures IsSplit(s, delim, parts)
  {
    hide Free, SplitOff, IsSplit;
    parts := [];
    var last := 0;
    var index := FindFirstOf(s, delim, last);
    SplitStart(s, delim);
    while index < |s|
      invariant last <= index <= |s| && SplitOff(s, delim, last, parts)
      invariant Free(s[last..index], delim) && (index < |s| ==> s[index] in delim)
      decreases |s| - last
    {
      SplitNext(s, delim, last, index, parts);
      parts := parts + [s[last..index]];
      last := index + 1;
      index := FindFirstOf(s, delim, last);
    }
    SplitEnd(s, delim, last, parts);
    parts := parts + [s[last..]];
  }

  /** What precedes the first delimiter of a string is determined by the string. */
  lemma FirstPart(a: string, x: string, b: string, y: string, sep: char, delim: string)
    requires Free(a, delim) && Free(b, delim) && sep in delim
    requires a + [sep] + x == b + [sep] + y
    ensures a == b && x == y
  {
    var s := a + [sep] + x;
    assert s[|a|] == sep && s == b + [sep] + y && s[|b|] == sep;
    assert forall i :: 0 <= i < |a| ==> s[i] == a[i];
    assert forall i :: 0 <= i < |b| ==> s[i] == b[i];
    assert forall i :: 0 <= i < |a| ==> s[i] !in delim;
    assert |a| == |b|;
    assert a == s[..|a|] && b == s[..|b|];
    assert x == s[|a| + 1..] && y == s[|b| + 1..];
  }

  /** Splitting undoes weaving: delimiter-free parts woven with delimiters are the only parts of the result. */
  lemma {:induction false} SplitUnique(p: seq<string>, q: seq<string>, seps: string, delim: string)
    requires |p| == |q| == |seps| + 1 && AllFree(p, delim) && AllFree(q, delim)
    requires forall k :: 0 <= k < |seps| ==> seps[k] in delim
    requires Weave(p, seps) == Weave(q, seps)
    ensures p == q
  {
    if |seps| == 0 {
      assert p == [p[0]] && q == [q[0]];
    } else {
      FirstPart(p[0], Weave(p[1..], seps[1..]), q[0], Weave(q[1..], seps[1..]), seps[0], delim);
      SplitUnique(p[1..], q[1..], seps[1..], delim);
      assert p == [p[0]] + p[1..] && q == [q[0]] + q[1..];
    }
  }

  // ----- trim -----

  predicate Blank(s: string) {
    forall i :: 0 <= i < |s| ==> IsSpace(s[i])
  }

  /** Leaves an all-blank string as it is. */
  method TrimLeft(s: string) returns (t: string)
    ensures Blank(s) ==> t == s
    ensures !Blank(s) ==> exists n :: 0 <= n < |s| && Blank(s[..n]) && !IsSpace(s[n]) && t == s[n..]
  {
    t := s;
    var i := 0;
    while i < |s|
      invariant 0 <= i <= |s| && t == s
      invariant forall k :: 0 <= k < i ==> IsSpace(s[k])
    {
      if !IsSpace(s[i]) {
        t := s[i..];
        return;
      }
      i := i + 1;
    }
  }

  method TrimRight(s: string) returns (t: string)
    ensures Blank(s) ==> t == ""
    ensures !Blank(s) ==> exists n :: 0 < n <= |s| && Blank(s[n..]) && !IsSpace(s[n - 1]) && t == s[..n]
  {
    if s == "" {
      return s;
    }
    var i := |s| - 1;
    while true
      invariant 0 <= i < |s|
      invariant forall k :: i < k < |s| ==> IsSpace(s[k])
      decreases i
    {
      if !IsSpace(s[i]) {
        t := s[..i + 1];
        return;
      }
      if i == 0 {
        return "";
      }
      i := i - 1;
    }
  }

  /** t is s without its maximal leading and trailing whitespace. */
  ghost predicate Trimmed(s: string, t: string) {
    exists m, n :: 0 <= m <= n <= |s| && TrimmedAt(s, t, m, n)
  }

  ghost predicate TrimmedAt(s: string, t: string, m: nat, n: nat)
    requires m <= n <= |s|
  {
    && t == s[m..n] && Blank(s[..m]) && Blank(s[n..])
    && (t != "" ==> !IsSpace(t[0]) && !IsSpace(t[|t| - 1]))
  }

  lemma TrimmedBothEnds(s: string, m: nat, n: nat)
    requires m < |s| && 0 < n <= |s[m..]|
    requires Blank(s[..m]) && !IsSpace(s[m]) && Blank(s[m..][n..]) && !IsSpace(s[m..][n - 1])
    ensures Trimmed(s, s[m..][..n])
  {
    hide IsSpace;
    assert s[m..][n..] == s[m + n..] && s[m..][..n] == s[m..m + n];
    assert TrimmedAt(s, s[m..][..n], m, m + n);
  }

  method Trim(s: string) returns (t: string)
    ensures Trimmed(s, t)
    ensures Blank(s) ==> t == ""
  {
    hide IsSpace;
    var u := TrimLeft(s);
    t := TrimRight(u);
    if Blank(s) {
      assert TrimmedAt(s, t, 0, 0);
    } else {
      ghost var m :| 0 <= m < |s| && Blank(s[..m]) && !IsSpace(s[m]) && u == s[m..];
      assert u[0] == s[m];
      assert !Blank(u);
      ghost var n :| 0 < n <= |u| && Blank(u[n..]) && !IsSpace(u[n - 1]) && t == u[..n];
      TrimmedBothEnds(s, m, n);
    }
  }

  /** The bounds of a trimmed string, read off the string itself. */
  lemma TrimBounds(s: string, t: string, m: nat, n: nat)
    requires m <= n <= |s| && TrimmedAt(s, t, m, n)
    ensures forall i :: 0 <= i < m || n <= i < |s| ==> IsSpace(s[i])
    ensures m < n ==> !IsSpace(s[m]) && !IsSpace(s[n - 1])
  {
    hide IsSpace;
    assert forall i :: 0 <= i < m ==> s[..m][i] == s[i];
    forall i | n <= i < |s| ensures IsSpace(s[i]) {
      assert s[n..][i - n] == s[i];
    }
    assert m < n ==> t[0] == s[m] && t[|t| - 1] == s[n - 1];
  }

  /** There is one such string: trimming is a function. */
  lemma TrimUnique(s: string, t: string, u: string)
    requires Trimmed(s, t) && Trimmed(s, u)
    ensures t == u
  {
    hide IsSpace, Blank;
    var m, n :| 0 <= m <= n <= |s| && TrimmedAt(s, t, m, n);
    var x, y :| 0 <= x <= y <= |s| && TrimmedAt(s, u, x, y);
    TrimBounds(s, t, m, n);
    TrimBounds(s, u, x, y);
    assert m < n <==> x < y;
    assert m < n ==> m == x && n == y;
    assert m == n ==> t == u == "";
  }

  /** Trimming twice is trimming once. */
  lemma TrimIdempotent(s: string, t: string, u: string)
    requires Trimmed(s, t) && Trimmed(t, u)
    ensures u == t
  {
    assert TrimmedAt(t, t, 0, |t|);
    TrimUnique(t, t, u);
  }
}
