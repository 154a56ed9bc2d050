/** Loading the IP data file: lines of address ranges with the names of an operator and an area. */
module IpLoader {
  import opened IpRangeTable
  import opened StringUtil

  /** The known names, and what inet_addr makes of a string. */
  datatype Names = Names(isps: map<string, nat>, areas: map<string, nat>, addr: string -> nat)

  const NO_ADDRESS: nat := 0xffff_ffff

  datatype Parsed = Skip | Keep(entry: Entry)

  /** The first four parts, trimmed. */
  ghost predicate IsFields(parts: seq<string>, fields: seq<string>) {
    if |parts| < 4 then fields == []
    else |fields| == 4 && forall k :: 0 <= k < 4 ==> Trimmed(parts[k], fields[k])
  }

  function Decide(names: Names, body: string, fields: seq<string>): Parsed {
    if body == "" || |fields| != 4 || fields[2] !in names.isps || fields[3] !in names.areas then Skip
    else
      var from, to := names.addr(fields[0]), names.addr(fields[1]);
      if from == NO_ADDRESS || to == NO_ADDRESS then Skip
      else Keep(Entry(Range(from, to), Origin(names.isps[fields[2]], names.areas[fields[3]])))
  }

  ghost predicate ReadsVia(names: Names, delim: string, line: string, p: Parsed,
                           body: string, parts: seq<string>, fields: seq<string>) {
    Trimmed(line, body) && IsSplit(body, delim, parts) && IsFields(parts, fields) && p == Decide(names, body, fields)
  }

  /** What a line says. */
  ghost predicate Reads(names: Names, delim: string, line: string, p: Parsed) {
    exists body, parts, fields :: ReadsVia(names, delim, line, p, body, parts, fields)
  }

  lemma {:induction false} SepsAreDelimiters(s: string, delim: string)
    ensures forall k :: 0 <= k < |Seps(s, delim)| ==> Seps(s, delim)[k] in delim
  {
    if s != "" { SepsAreDelimiters(s[1..], delim); }
  }

  /** A line says one thing. */
  lemma ReadsOnce(names: Names, delim: string, line: string, p: Parsed, q: Parsed)
    requires Reads(names, delim, line, p) && Reads(names, delim, line, q)
    ensures p == q
  {
    hide Trimmed, Weave, Seps, AllFree, Decide;
    var b, xs, fs :| ReadsVia(names, delim, line, p, b, xs, fs);
    var c, ys, gs :| ReadsVia(names, delim, line, q, c, ys, gs);
    TrimUnique(line, b, c);
    SepsAreDelimiters(b, delim);
    SplitUnique(xs, ys, Seps(b, delim), delim);
    if |xs| >= 4 {
      forall k | 0 <= k < 4 ensures fs[k] == gs[k] { TrimUnique(xs[k], fs[k], gs[k]); }
      assert fs == gs;
    }
  }

  method ParseLine(names: Names, delim: string, line: string) returns (p: Parsed)
    ensures Reads(names, delim, line, p)
  {
    hide Trimmed, Weave, Seps, AllFree;
    var body := Trim(line);
    var parts := Split(body, delim);
    if |parts| < 4 {
      p := Skip;
      assert ReadsVia(names, delim, line, p, body, parts, []);
      return;
    }
    var isp := Trim(parts[2]);
    var area := Trim(parts[3]);
    var from := Trim(parts[0]);
    var to := Trim(parts[1]);
    p := Decide(names, body, [from, to, isp, area]);
    assert ReadsVia(names, delim, line, p, body, parts, [from, to, isp, area]);
  }

  // ----- Round trip -----

  function Format(fields: seq<string>, sep: char): string
    requires |fields| == 4
  {
    fields[0] + [sep] + (fields[1] + [sep] + (fields[2] + [sep] + fields[3]))
  }

  /** A field that a line can carry: not empty, without delimiters and without blanks around it. */
  predicate Clean(f: string, delim: string) {
    f != "" && Free(f, delim) && !IsSpace(f[0]) && !IsSpace(f[|f| - 1])
  }

  lemma SolidTrims(s: string)
    requires s != "" && !IsSpace(s[0]) && !IsSpace(s[|s| - 1])
    ensures Trimmed(s, s)
  {
    assert TrimmedAt(s, s, 0, |s|);
  }

  lemma SepsOfField(f: string, sep: char, rest: string, delim: string)
    requires Free(f, delim) && sep in delim
    ensures Seps(f + [sep] + rest, delim) == [sep] + Seps(rest, delim)
  {
    SepsConcat(f + [sep], rest, delim);
    SepsConcat(f, [sep], delim);
    SepsOfFree(f, delim);
    assert Seps([sep], delim) == [sep];
  }

  lemma FormatSplits(f: seq<string>, sep: char, delim: string)
    requires |f| == 4 && sep in delim && forall k :: 0 <= k < 4 ==> Free(f[k], delim)
    ensures IsSplit(Format(f, sep), delim, f)
  {
    var line2 := f[2] + [sep] + f[3];
    var line1 := f[1] + [sep] + line2;
    SepsOfFree(f[3], delim);
    SepsOfField(f[2], sep, f[3], delim);
    SepsOfField(f[1], sep, line2, delim);
    SepsOfField(f[0], sep, line1, delim);
    assert Seps(Format(f, sep), delim) == [sep, sep, sep];
    WeaveFour(f, sep);
  }

  lemma WeaveFour(f: seq<string>, sep: char)
    requires |f| == 4
    ensures Weave(f, [sep, sep, sep]) == Format(f, sep)
  {
    assert [sep, sep, sep][1..] == [sep, sep] && [sep, sep][1..] == [sep] && [sep][1..] == [];
    assert f[1..][1..] == f[2..] && f[2..][1..] == f[3..];
    assert Weave(f[3..], []) == f[3];
    assert Weave(f[2..], [sep]) == f[2] + [sep] + f[3];
    assert Weave(f[1..], [sep, sep]) == f[1] + [sep] + (f[2] + [sep] + f[3]);
  }

  /** A line written from clean fields with any of the delimiters is read back as those fields. */
  lemma FormatReads(names: Names, f: seq<string>, sep: char, delim: string)
    requires |f| == 4 && sep in delim && forall k :: 0 <= k < 4 ==> Clean(f[k], delim)
    ensures Reads(names, delim, Format(f, sep), Decide(names, Format(f, sep), f))
  {
    hide Trimmed, Weave, Seps, IsSpace, Decide, Free;
    var line := Format(f, sep);
    assert line[0] == f[0][0] && line[|line| - 1] == f[3][|f[3]| - 1];
    SolidTrims(line);
    FormatSplits(f, sep, delim);
    forall k | 0 <= k < 4 ensures Trimmed(f[k], f[k]) { SolidTrims(f[k]); }
    assert ReadsVia(names, delim, line, Decide(names, line, f), line, f, f);
  }

  /** A line of clean fields with known names and addresses gives the range between its addresses, with the codes of its names. */
  lemma FormatKeeps(names: Names, f: seq<string>, sep: char, delim: string)
    requires Fit(names, f, delim) && sep in delim
    ensures Reads(names, delim, Format(f, sep),
                  Keep(Entry(Range(names.addr(f[0]), names.addr(f[1])), Origin(names.isps[f[2]], names.areas[f[3]]))))
  {
    hide Reads, Clean;
    FormatReads(names, f, sep, delim);
    assert Format(f, sep) != "";
  }

  predicate Fit(names: Names, f: seq<string>, delim: string) {
    && |f| == 4 && (forall k :: 0 <= k < 4 ==> Clean(f[k], delim))
    && f[2] in names.isps && f[3] in names.areas
    && names.addr(f[0]) != 0xffff_ffff && names.addr(f[1]) != 0xffff_ffff
  }

  lemma TrimmedBlank(s: string, t: string)
    requires Trimmed(s, t)
    ensures t == "" <==> Blank(s)
  {
    hide IsSpace;
    var m, n :| 0 <= m <= n <= |s| && TrimmedAt(s, t, m, n);
    TrimBounds(s, t, m, n);
  }

  /** A line is skipped if and only if it is blank, has fewer than four parts, has an unknown name or has an end that is no address. */
  lemma SkipsIff(names: Names, delim: string, line: string, body: string, parts: seq<string>, f: seq<string>)
    requires Trimmed(line, body) && IsSplit(body, delim, parts) && |f| == 4
    requires |parts| >= 4 ==> forall k :: 0 <= k < 4 ==> Trimmed(parts[k], f[k])
    ensures Reads(names, delim, line, Skip) <==>
      || Blank(line) || |parts| < 4 || f[2] !in names.isps || f[3] !in names.areas
      || names.addr(f[0]) == 0xffff_ffff || names.addr(f[1]) == 0xffff_ffff
  {
    hide Trimmed, IsSplit, Blank;
    TrimmedBlank(line, body);
    var fields := if |parts| < 4 then [] else f;
    assert ReadsVia(names, delim, line, Decide(names, body, fields), body, parts, fields);
    hide Decide;
    assert Reads(names, delim, line, Decide(names, body, fields));
    if Reads(names, delim, line, Skip) {
      ReadsOnce(names, delim, line, Skip, Decide(names, body, fields));
    }
    DecideSkips(names, body, fields);
  }

  lemma DecideSkips(names: Names, body: string, fields: seq<string>)
    ensures Decide(names, body, fields).Skip? <==>
      || body == "" || |fields| != 4 || fields[2] !in names.isps || fields[3] !in names.areas
      || names.addr(fields[0]) == NO_ADDRESS || names.addr(fields[1]) == NO_ADDRESS
  {
  }

  // ----- The load loop -----

  function Kept(ps: seq<Parsed>): seq<Entry> {
    if ps == [] then []
    else Kept(ps[..|ps| - 1]) + if ps[|ps| - 1].Keep? then [ps[|ps| - 1].entry] else []
  }

  lemma KeptSnoc(ps: seq<Parsed>, p: Parsed)
    ensures Kept(ps + [p]) == if p.Keep? then Kept(ps) + [p.entry] else Kept(ps)
  {
    assert (ps + [p])[..|ps|] == ps;
  }

  /** The table and the readings of the lines so far. */
  ghost predicate Loaded(names: Names, delim: string, lines: seq<string>, t0: Tree, ps: seq<Parsed>, t: Tree) {
    && |ps| <= |lines| && (forall k :: 0 <= k < |ps| ==> Reads(names, delim, lines[k], ps[k]))
    && Built(t0, Kept(ps), t)
  }

  lemma LoadedSnoc(names: Names, delim: string, lines: seq<string>, t0: Tree, ps: seq<Parsed>, t: Tree, p: Parsed, t': Tree)
    requires Loaded(names, delim, lines, t0, ps, t) && |ps| < |lines| && Reads(names, delim, lines[|ps|], p)
    requires if p.Keep? then Inorder(t') == Inorder(Inserted(t, p.entry)) else t' == t
    ensures Loaded(names, delim, lines, t0, ps + [p], t')
  {
    hide Reads, Built, Inserted, Inorder, Kept;
    KeptSnoc(ps, p);
    if p.Keep? { BuiltSnoc(t0, Kept(ps), t, p.entry, t'); }
  }

  lemma LoadedNone(names: Names, delim: string, lines: seq<string>, t0: Tree)
    ensures Loaded(names, delim, lines, t0, [], t0)
  {
  }

  /** loadIspIpDataFile from its open file on: the lines are read in order and the ranges they give are inserted in order. A range
      whose ends are the wrong way round fails the key's assertion and stops everything. */
  method LoadLines(table: IpTable, names: Names, delim: string, lines: seq<string>)
    returns (aborted: bool, ghost ps: seq<Parsed>)
    requires table.Valid()
    modifies table
    ensures table.Valid() && Loaded(names, delim, lines, old(table.root), ps, table.root)
    ensures !aborted ==> |ps| == |lines|
    ensures aborted ==> |ps| < |lines| && exists e :: Reads(names, delim, lines[|ps|], Keep(e)) && e.key.to < e.key.from
  {
    hide Reads, Loaded, Inserted, Inorder, Sorted;
    ps, aborted := [], false;
    LoadedNone(names, delim, lines, table.root);
    var n := 0;
    while n < |lines|
      invariant 0 <= n == |ps| <= |lines| && table.Valid()
      invariant Loaded(names, delim, lines, old(table.root), ps, table.root)
    {
      ghost var t := table.root;
      var p := ParseLine(names, delim, lines[n]);
      if p.Keep? {
        if p.entry.key.to < p.entry.key.from {
          assert p == Keep(p.entry);
          return true, ps;
        }
        var _ := table.Insert(p.entry.key.from, p.entry.key.to, p.entry.value);
      }
      LoadedSnoc(names, delim, lines, old(table.root), ps, t, p, table.root);
      ps := ps + [p];
      n := n + 1;
    }
  }

  /** A file whose lines are well formed and disjoint sends every address of a line to that line's names, however the map
      shapes its tree. */
  lemma LoadedLookup(names: Names, delim: string, lines: seq<string>, ps: seq<Parsed>, t: Tree, n: nat, ip: nat)
    requires Loaded(names, delim, lines, Leaf, ps, t) && AllOk(Kept(ps)) && Disjoint(Kept(ps))
    requires n < |ps| && ps[n].Keep? && Covers(ps[n].entry.key, ip)
    ensures Reads(names, delim, lines[n], ps[n]) && Find(t, Point(ip)) == Hit(ps[n].entry)
  {
    hide Built, Find;
    KeptIn(ps, n);
    var es := Kept(ps);
    var m :| 0 <= m < |es| && es[m] == ps[n].entry;
    DisjointLookup(es, t, m, ip);
  }

  // ----- Whole files -----

  /** The lines of a file of records. */
  function FileOf(fs: seq<seq<string>>, sep: char): seq<string>
    requires forall k :: 0 <= k < |fs| ==> |fs[k]| == 4
  {
    seq(|fs|, k requires 0 <= k < |fs| => Format(fs[k], sep))
  }

  function RangeOf(names: Names, f: seq<string>): Range
    requires |f| == 4
  {
    Range(names.addr(f[0]), names.addr(f[1]))
  }

  /** Records that fit, with their ends in order, and ranges that do not meet. */
  ghost predicate FileFits(names: Names, fs: seq<seq<string>>, delim: string) {
    && (forall k :: 0 <= k < |fs| ==> Fit(names, fs[k], delim) && Ok(RangeOf(names, fs[k])))
    && (forall j, k :: 0 <= j < k < |fs| ==>
          RangeOf(names, fs[j]).to < RangeOf(names, fs[k]).from || RangeOf(names, fs[k]).to < RangeOf(names, fs[j]).from)
  }

  ghost predicate Told(names: Names, fs: seq<seq<string>>, ps: seq<Parsed>) {
    && |ps| <= |fs|
    && forall k :: 0 <= k < |ps| ==>
         |fs[k]| == 4 && fs[k][2] in names.isps && fs[k][3] in names.areas &&
         ps[k] == Keep(Entry(RangeOf(names, fs[k]), Origin(names.isps[fs[k][2]], names.areas[fs[k][3]])))
  }

  /** Such a file is read as its records, line by line, and no line of it stops the load. */
  lemma FileIsTold(names: Names, fs: seq<seq<string>>, sep: char, delim: string, ps: seq<Parsed>)
    requires FileFits(names, fs, delim) && sep in delim && |ps| <= |fs|
    requires forall k :: 0 <= k < |ps| ==> Reads(names, delim, FileOf(fs, sep)[k], ps[k])
    ensures Told(names, fs, ps)
    ensures forall k, e :: 0 <= k < |fs| && Reads(names, delim, FileOf(fs, sep)[k], Keep(e)) ==> e.key.from <= e.key.to
  {
    hide Reads, Clean, Format;
    forall k, e | 0 <= k < |fs| && Reads(names, delim, FileOf(fs, sep)[k], Keep(e)) ensures e.key.from <= e.key.to {
      FormatKeeps(names, fs[k], sep, delim);
      ReadsOnce(names, delim, Format(fs[k], sep), Keep(e),
                Keep(Entry(RangeOf(names, fs[k]), Origin(names.isps[fs[k][2]], names.areas[fs[k][3]]))));
    }
    forall k | 0 <= k < |ps|
      ensures ps[k] == Keep(Entry(RangeOf(names, fs[k]), Origin(names.isps[fs[k][2]], names.areas[fs[k][3]])))
    {
      FormatKeeps(names, fs[k], sep, delim);
      ReadsOnce(names, delim, Format(fs[k], sep), ps[k],
                Keep(Entry(RangeOf(names, fs[k]), Origin(names.isps[fs[k][2]], names.areas[fs[k][3]]))));
    }
  }

  lemma {:induction false} KeptOfTold(names: Names, fs: seq<seq<string>>, delim: string, ps: seq<Parsed>)
    requires FileFits(names, fs, delim) && Told(names, fs, ps)
    ensures |Kept(ps)| == |ps| && forall k :: 0 <= k < |ps| ==> Kept(ps)[k] == ps[k].entry
    ensures AllOk(Kept(ps)) && Disjoint(Kept(ps))
  {
    hide Clean, Fit;
    if ps != [] {
      KeptOfTold(names, fs, delim, ps[..|ps| - 1]);
    }
  }

  /** After such a file has been loaded, every address of a line is looked up with the codes of that line's names. */
  lemma LoadedFile(names: Names, fs: seq<seq<string>>, sep: char, delim: string, ps: seq<Parsed>, t: Tree, n: nat, ip: nat)
    requires FileFits(names, fs, delim) && sep in delim
    requires Loaded(names, delim, FileOf(fs, sep), Leaf, ps, t)
    requires n < |ps| <= |fs| && names.addr(fs[n][0]) <= ip <= names.addr(fs[n][1])
    ensures var found := Scan(Inorder(t), Point(ip));
      found.Hit? && found.entry.value == Origin(names.isps[fs[n][2]], names.areas[fs[n][3]])
  {
    FileIsTold(names, fs, sep, delim, ps);
    KeptOfTold(names, fs, delim, ps);
    LoadSorted(Kept(ps), t);
    hide Inorder, Reads, Built, Find, Scan, Sorted, FileFits, AllOk, Disjoint, Kept;
    LoadedLookup(names, delim, FileOf(fs, sep), ps, t, n, ip);
    FindIsScan(t, Point(ip));
  }

  lemma {:induction false} KeptIn(ps: seq<Parsed>, n: nat)
    requires n < |ps| && ps[n].Keep?
    ensures ps[n].entry in Kept(ps)
  {
    if n < |ps| - 1 {
      assert ps[..|ps| - 1][n] == ps[n];
      KeptIn(ps[..|ps| - 1], n);
    }
  }
}
