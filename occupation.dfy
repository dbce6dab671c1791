/** The profession table read from CBO2002_LISTA.csv (`load_cbo_data`), the expansion of a
    chosen profession into the occupation codes the contact table may hold, and the
    word-by-word match behind the profession combobox filter. */
module Occupation {
  import opened PyText

  /** One `(title, code without hyphens, first four characters of that code)` triple. */
  datatype CboEntry = CboEntry(title: string, code: string, short: string)

  /** `s.replace('-', '')`. */
  function RemoveHyphens(s: string): (r: string)
    ensures multiset(r) == multiset(s)['-' := 0]
  {
    if s == [] then []
    else
      var rest := RemoveHyphens(s[..|s| - 1]);
      var c := s[|s| - 1];
      assert s == s[..|s| - 1] + [c];
      if c == '-' then rest else rest + [c]
  }

  /** Index of the first comma, if any. */
  function FirstComma(s: string): (i: Option<nat>)
    ensures i.None? <==> ',' !in s
    ensures i.Some? ==> i.value < |s| && s[i.value] == ',' && ',' !in s[..i.value]
  {
    if s == [] then None
    else if s[0] == ',' then Some(0)
    else
      match FirstComma(s[1..])
      case None => None
      case Some(j) => assert s[..j + 1] == [s[0]] + s[1..][..j]; Some(j + 1)
  }

  /** One line of the table file: `cbo, profissao = line.strip().split(',', 1)`, hyphens
      removed from the code, the short code its first four characters. A line without a
      comma fails to unpack and is skipped. */
  function ParseCboLine(line: string): Option<CboEntry>
  {
    SplitEntry(Strip(line))
  }

  /** The split of an already stripped line at its first comma. */
  function SplitEntry(t: string): Option<CboEntry>
  {
    match FirstComma(t)
    case None => None
    case Some(i) =>
      var clean := RemoveHyphens(t[..i]);
      Some(CboEntry(t[i + 1..], clean, clean[..if |clean| < 4 then |clean| else 4]))
  }

  lemma SplitEntrySpec(t: string)
    ensures SplitEntry(t).Some? <==> ',' in t
    ensures SplitEntry(t).Some? ==>
      var e := SplitEntry(t).value;
      exists raw :: ',' !in raw && t == raw + [','] + e.title && e.code == RemoveHyphens(raw)
    ensures SplitEntry(t).Some? ==>
      var e := SplitEntry(t).value;
      '-' !in e.code && |e.short| == (if |e.code| < 4 then |e.code| else 4) && e.short == e.code[..|e.short|]
  {
    if ',' in t {
      SplitEntryCut(t);
      SplitEntryCode(t);
    }
  }

  /** The entry is the text before the first comma, the comma, and the label. */
  lemma SplitEntryCut(t: string)
    requires ',' in t
    ensures var e := SplitEntry(t).value;
      exists raw :: ',' !in raw && t == raw + [','] + e.title && e.code == RemoveHyphens(raw)
  {
    var i := FirstComma(t).value;
    var raw := t[..i];
    var e := SplitEntry(t).value;
    CutAt(t, i);
    assert e.title == t[i + 1..] && e.code == RemoveHyphens(raw);
  }

  lemma CutAt(t: string, i: nat)
    requires i < |t| && t[i] == ','
    ensures t == t[..i] + [','] + t[i + 1..]
  {
    assert t[..i + 1] == t[..i] + [','];
    assert t == t[..i + 1] + t[i + 1..];
  }

  /** The code has no hyphen and the short code is its first four characters. */
  lemma SplitEntryCode(t: string)
    requires ',' in t
    ensures var e := SplitEntry(t).value;
      '-' !in e.code && |e.short| == (if |e.code| < 4 then |e.code| else 4) && e.short == e.code[..|e.short|]
  {
    var i := FirstComma(t).value;
    NoHyphens(t[..i]);
  }

  lemma NoHyphens(s: string)
    ensures '-' !in RemoveHyphens(s)
  {
    assert '-' !in multiset(RemoveHyphens(s));
  }

  /** A parsed line is the stripped line cut at its first comma: code text (hyphens then
      removed), comma, label; exactly the lines whose stripped text holds a comma parse. */
  lemma ParseCboLineSpec(line: string)
    ensures ParseCboLine(line).Some? <==> ',' in Strip(line)
    ensures ParseCboLine(line).Some? ==>
      var e := ParseCboLine(line).value;
      exists raw :: ',' !in raw && Strip(line) == raw + [','] + e.title && e.code == RemoveHyphens(raw)
    ensures ParseCboLine(line).Some? ==>
      var e := ParseCboLine(line).value;
      '-' !in e.code && |e.short| == (if |e.code| < 4 then |e.code| else 4) && e.short == e.code[..|e.short|]
  {
    SplitEntrySpec(Strip(line));
  }

  /** Python's tuple order on `(label, code, short)`. */
  predicate EntryLess(a: CboEntry, b: CboEntry)
  {
    || StrLess(a.title, b.title)
    || (a.title == b.title && StrLess(a.code, b.code))
    || (a.title == b.title && a.code == b.code && StrLess(a.short, b.short))
  }

  lemma EntryLessIrreflexive(a: CboEntry)
    ensures !EntryLess(a, a)
  {
    StrLessIrreflexive(a.title);
    StrLessIrreflexive(a.code);
    StrLessIrreflexive(a.short);
  }

  lemma EntryLessTransitive(a: CboEntry, b: CboEntry, c: CboEntry)
    requires EntryLess(a, b) && EntryLess(b, c)
    ensures EntryLess(a, c)
  {
    if StrLess(a.title, b.title) && StrLess(b.title, c.title) {
      StrLessTransitive(a.title, b.title, c.title);
    } else if a.title == b.title == c.title && StrLess(a.code, b.code) && StrLess(b.code, c.code) {
      StrLessTransitive(a.code, b.code, c.code);
    } else if a.title == b.title == c.title && a.code == b.code == c.code {
      StrLessTransitive(a.short, b.short, c.short);
    }
  }

  lemma EntryLessAsymmetric(a: CboEntry, b: CboEntry)
    requires EntryLess(a, b)
    ensures !EntryLess(b, a)
  {
    if EntryLess(b, a) {
      EntryLessTransitive(a, b, a);
      EntryLessIrreflexive(a);
    }
  }

  lemma EntryLessTotal(a: CboEntry, b: CboEntry)
    requires a != b
    ensures EntryLess(a, b) || EntryLess(b, a)
  {
    if a.title != b.title {
      StrLessTotal(a.title, b.title);
    } else if a.code != b.code {
      StrLessTotal(a.code, b.code);
    } else {
      StrLessTotal(a.short, b.short);
    }
  }

  predicate StrictlySorted(s: seq<CboEntry>)
  {
    forall i, j :: 0 <= i < j < |s| ==> EntryLess(s[i], s[j])
  }

  /** Inserts one entry into a strictly sorted sequence, dropping it if already present. */
  function Insert(s: seq<CboEntry>, e: CboEntry): seq<CboEntry>
  {
    if s == [] then [e]
    else if e == s[0] then s
    else if EntryLess(e, s[0]) then [e] + s
    else [s[0]] + Insert(s[1..], e)
  }

  lemma {:induction false} InsertSpec(s: seq<CboEntry>, e: CboEntry)
    requires StrictlySorted(s)
    ensures StrictlySorted(Insert(s, e))
    ensures forall x :: x in Insert(s, e) <==> x in s || x == e
  {
    if s != [] && e != s[0] && !EntryLess(e, s[0]) {
      EntryLessTotal(e, s[0]);
      assert StrictlySorted(s[1..]);
      InsertSpec(s[1..], e);
      var t := Insert(s[1..], e);
      forall x | x in t
        ensures EntryLess(s[0], x)
      {
        if x != e {
          var k :| 0 <= k < |s[1..]| && s[1..][k] == x;
          assert s[k + 1] == x;
        }
      }
      assert s == [s[0]] + s[1..];
    } else if s != [] && e != s[0] && EntryLess(e, s[0]) {
      forall i, j | 0 <= i < j < |[e] + s|
        ensures EntryLess(([e] + s)[i], ([e] + s)[j])
      {
        if i == 0 && j > 1 {
          EntryLessTransitive(e, s[0], s[j - 1]);
        }
      }
    }
  }

  /** `sorted(set(entries))`, built one insertion at a time. */
  function SortedSet(entries: seq<CboEntry>): seq<CboEntry>
  {
    if entries == [] then [] else Insert(SortedSet(entries[..|entries| - 1]), entries[|entries| - 1])
  }

  lemma {:induction false} SortedSetSpec(entries: seq<CboEntry>)
    ensures StrictlySorted(SortedSet(entries))
    ensures forall x :: x in SortedSet(entries) <==> x in entries
  {
    if entries != [] {
      var init := entries[..|entries| - 1];
      SortedSetSpec(init);
      InsertSpec(SortedSet(init), entries[|entries| - 1]);
      assert entries == init + [entries[|entries| - 1]];
    }
  }

  /** A strictly sorted sequence is determined by its elements: the result is exactly
      Python's `sorted(set(...))`, whatever order the file listed the lines in. */
  lemma {:induction false} SortedUnique(a: seq<CboEntry>, b: seq<CboEntry>)
    requires StrictlySorted(a) && StrictlySorted(b)
    requires forall x :: x in a <==> x in b
    ensures a == b
    decreases |a|
  {
    if a != [] {
      assert a[0] in a;
    }
    if b != [] {
      assert b[0] in b;
    }
    if a != [] && b != [] {
      if a[0] != b[0] {
        var i :| 0 <= i < |a| && a[i] == b[0];
        var j :| 0 <= j < |b| && b[j] == a[0];
        assert i > 0 && j > 0;
        EntryLessAsymmetric(a[0], a[i]);
      }
      forall x
        ensures x in a[1..] <==> x in b[1..]
      {
        if x in a[1..] {
          var k :| 0 <= k < |a[1..]| && a[1..][k] == x;
          assert a[k + 1] == x && EntryLess(a[0], x);
          EntryLessIrreflexive(x);
          assert x in b && x != b[0];
          var m :| 0 <= m < |b| && b[m] == x;
          assert b[1..][m - 1] == x;
        }
        if x in b[1..] {
          var k :| 0 <= k < |b[1..]| && b[1..][k] == x;
          assert b[k + 1] == x && EntryLess(b[0], x);
          EntryLessIrreflexive(x);
          assert x in a && x != a[0];
          var m :| 0 <= m < |a| && a[m] == x;
          assert a[1..][m - 1] == x;
        }
      }
      assert StrictlySorted(a[1..]) && StrictlySorted(b[1..]);
      SortedUnique(a[1..], b[1..]);
      assert a == [a[0]] + a[1..] && b == [b[0]] + b[1..];
    }
  }

  /** The values of the present options, in order. */
  function SomeValues(os: seq<Option<CboEntry>>): seq<CboEntry>
  {
    if os == [] then []
    else
      var rest := SomeValues(os[..|os| - 1]);
      match os[|os| - 1]
      case None => rest
      case Some(e) => rest + [e]
  }

  lemma {:induction false} SomeValuesMembership(os: seq<Option<CboEntry>>, e: CboEntry)
    ensures e in SomeValues(os) <==> Some(e) in os
  {
    if os != [] {
      var init := os[..|os| - 1];
      SomeValuesMembership(init, e);
      assert os == init + [os[|os| - 1]];
    }
  }

  /** The entries of the parsable lines, in file order. */
  function ParsedEntries(lines: seq<string>): seq<CboEntry>
  {
    SomeValues(seq(|lines|, i requires 0 <= i < |lines| => ParseCboLine(lines[i])))
  }

  lemma ParsedEntriesMembership(lines: seq<string>, e: CboEntry)
    ensures e in ParsedEntries(lines) <==> exists l :: l in lines && ParseCboLine(l) == Some(e)
  {
    var os := seq(|lines|, i requires 0 <= i < |lines| => ParseCboLine(lines[i]));
    SomeValuesMembership(os, e);
    if Some(e) in os {
      var i :| 0 <= i < |os| && os[i] == Some(e);
      assert lines[i] in lines;
    }
    if exists l :: l in lines && ParseCboLine(l) == Some(e) {
      var l :| l in lines && ParseCboLine(l) == Some(e);
      var i :| 0 <= i < |lines| && lines[i] == l;
      assert os[i] == Some(e);
    }
  }

  /** `load_cbo_data()`: the file's lines, or None when the file is missing or cannot be
      read, which yields the empty table. */
  function LoadCbo(file: Option<seq<string>>): seq<CboEntry>
  {
    match file
    case None => []
    case Some(lines) => SortedSet(ParsedEntries(lines))
  }

  /** The loaded table is strictly sorted (so free of duplicates) and holds exactly the
      entries of the lines that parse; a missing file gives the empty table. */
  lemma LoadCboSpec(file: Option<seq<string>>)
    ensures StrictlySorted(LoadCbo(file))
    ensures file.None? ==> LoadCbo(file) == []
    ensures file.Some? ==> forall e :: e in LoadCbo(file) <==>
      exists l :: l in file.value && ParseCboLine(l) == Some(e)
  {
    if file.Some? {
      SortedSetSpec(ParsedEntries(file.value));
      forall e
        ensures e in LoadCbo(file) <==> exists l :: l in file.value && ParseCboLine(l) == Some(e)
      {
        ParsedEntriesMembership(file.value, e);
      }
    }
  }

  /** `load_cbo_data()` equals the one strictly sorted arrangement of the parsed entries. */
  lemma LoadCboIsSortedSet(lines: seq<string>, other: seq<CboEntry>)
    requires StrictlySorted(other)
    requires forall e :: e in other <==> exists l :: l in lines && ParseCboLine(l) == Some(e)
    ensures LoadCbo(Some(lines)) == other
  {
    LoadCboSpec(Some(lines));
    SortedUnique(LoadCbo(Some(lines)), other);
  }

  /** The codes tried for a profession: `[full, short]` for every entry whose label equals
      it exactly, in table order. */
  function ExpandCodes(table: seq<CboEntry>, profession: string): seq<string>
  {
    if table == [] then []
    else (if table[0].title == profession then [table[0].code, table[0].short] else [])
         + ExpandCodes(table[1..], profession)
  }

  /** Number of entries labelled exactly `profession`. */
  function CountLabel(table: seq<CboEntry>, profession: string): nat
  {
    if table == [] then 0
    else (if table[0].title == profession then 1 else 0) + CountLabel(table[1..], profession)
  }

  /** Expansion yields two codes per matching entry, a full code at each even position and
      its short code right after; a code is produced exactly when a matching entry has it
      as full or short code, and nothing at all when no entry matches. */
  lemma ExpandCodesSpec(table: seq<CboEntry>, profession: string)
    ensures |ExpandCodes(table, profession)| == 2 * CountLabel(table, profession)
    ensures ExpandCodes(table, profession) == [] <==> forall e :: e in table ==> e.title != profession
    ensures forall c :: c in ExpandCodes(table, profession) <==>
      exists e :: e in table && e.title == profession && (c == e.code || c == e.short)
    ensures forall k :: 0 <= k < CountLabel(table, profession) ==>
      exists e :: e in table && e.title == profession &&
        ExpandCodes(table, profession)[2 * k] == e.code && ExpandCodes(table, profession)[2 * k + 1] == e.short
  {
    ExpandCodesMembership(table, profession);
    ExpandCodesPositions(table, profession);
    forall k | 0 <= k < CountLabel(table, profession)
      ensures exists e :: e in table && e.title == profession &&
                          ExpandCodes(table, profession)[2 * k] == e.code && ExpandCodes(table, profession)[2 * k + 1] == e.short
    {
      assert PairFrom(table, profession, ExpandCodes(table, profession), k);
    }
  }

  lemma {:induction false} ExpandCodesMembership(table: seq<CboEntry>, profession: string)
    ensures |ExpandCodes(table, profession)| == 2 * CountLabel(table, profession)
    ensures ExpandCodes(table, profession) == [] <==> forall e :: e in table ==> e.title != profession
    ensures forall c :: c in ExpandCodes(table, profession) <==>
      exists e :: e in table && e.title == profession && (c == e.code || c == e.short)
  {
    if table != [] {
      ExpandCodesMembership(table[1..], profession);
      assert table == [table[0]] + table[1..];
    }
  }

  /** Positions `2k` and `2k + 1` of `codes` hold the full and short code of one entry of
      `table` labelled `profession`. */
  ghost predicate PairFrom(table: seq<CboEntry>, profession: string, codes: seq<string>, k: nat)
    requires 2 * k + 1 < |codes|
  {
    exists e :: e in table && e.title == profession && codes[2 * k] == e.code && codes[2 * k + 1] == e.short
  }

  lemma {:induction false} ExpandCodesPositions(table: seq<CboEntry>, profession: string)
    ensures |ExpandCodes(table, profession)| == 2 * CountLabel(table, profession)
    ensures forall k: nat :: k < CountLabel(table, profession) ==>
      PairFrom(table, profession, ExpandCodes(table, profession), k)
  {
    if table != [] {
      ExpandCodesPositions(table[1..], profession);
      var r := ExpandCodes(table, profession);
      var rest := ExpandCodes(table[1..], profession);
      var n := CountLabel(table[1..], profession);
      assert |rest| == 2 * n;
      if table[0].title == profession {
        assert r == [table[0].code, table[0].short] + rest;
        assert CountLabel(table, profession) == n + 1;
        forall k: nat | k < n + 1
          ensures PairFrom(table, profession, r, k)
        {
          if k == 0 {
            assert r[0] == table[0].code && r[1] == table[0].short;
            assert table[0] in table;
          } else {
            assert PairFrom(table[1..], profession, rest, k - 1);
            var e :| e in table[1..] && e.title == profession && rest[2 * (k - 1)] == e.code && rest[2 * (k - 1) + 1] == e.short;
            assert r[2 * k] == rest[2 * (k - 1)] && r[2 * k + 1] == rest[2 * (k - 1) + 1];
            assert e in table;
          }
        }
      } else {
        assert r == rest;
        assert CountLabel(table, profession) == n;
        forall k: nat | k < n
          ensures PairFrom(table, profession, r, k)
        {
          assert PairFrom(table[1..], profession, rest, k);
          var e :| e in table[1..] && e.title == profession && rest[2 * k] == e.code && rest[2 * k + 1] == e.short;
          assert e in table;
        }
      }
    }
  }

  /** The expanded codes need not be distinct: two sub-classifications of one label share
      their four-character code, and a code of four characters or fewer is its own short
      code. */
  lemma ExpandedCodesRepeat(title: string, code1: string, code2: string)
    requires |code1| >= 4 && |code2| >= 4 && code1[..4] == code2[..4] && code1 != code2
    ensures var codes := ExpandCodes([CboEntry(title, code1, code1[..4]), CboEntry(title, code2, code2[..4])], title);
      |codes| == 4 && codes[1] == codes[3]
  {
    var table := [CboEntry(title, code1, code1[..4]), CboEntry(title, code2, code2[..4])];
    assert table[1..][1..] == [];
    assert ExpandCodes(table[1..], title) == [code2, code2[..4]];
    assert ExpandCodes(table, title) == [code1, code1[..4], code2, code2[..4]];
  }

  /** The labels that contain every word, in order. */
  function KeepMatching(profs: seq<string>, words: seq<string>): seq<string>
  {
    if profs == [] then []
    else
      var rest := KeepMatching(profs[..|profs| - 1], words);
      var p := profs[|profs| - 1];
      if forall w :: w in words ==> Contains(LowerStr(p), w) then rest + [p] else rest
  }

  /** The combobox filter: with an empty entry every label is offered; otherwise the
      lower-cased entry is split into words and a label is kept when each word occurs in
      the lower-cased label. */
  function FilterProfessions(profs: seq<string>, typed: string): seq<string>
  {
    var term := LowerStr(typed);
    if term == [] then profs else KeepMatching(profs, SplitWords(term))
  }

  lemma {:induction false} KeepMatchingSpec(profs: seq<string>, words: seq<string>)
    ensures forall p :: p in KeepMatching(profs, words) <==>
      p in profs && forall w :: w in words ==> Contains(LowerStr(p), w)
    ensures words == [] ==> KeepMatching(profs, words) == profs
  {
    if profs != [] {
      KeepMatchingSpec(profs[..|profs| - 1], words);
      assert profs == profs[..|profs| - 1] + [profs[|profs| - 1]];
    }
  }

  lemma LowerKeepsSpaces(s: string)
    requires forall k :: 0 <= k < |s| ==> IsSpace(s[k])
    ensures forall k :: 0 <= k < |LowerStr(s)| ==> IsSpace(LowerStr(s)[k])
  {
  }

  /** A label is offered exactly when it is in the list and every word of the lower-cased
      entry occurs somewhere in the lower-cased label; an entry of blanks alone keeps every
      label. */
  lemma FilterProfessionsSpec(profs: seq<string>, typed: string)
    ensures forall p :: p in FilterProfessions(profs, typed) <==>
      p in profs && forall w :: w in SplitWords(LowerStr(typed)) ==>
        exists i :: OccursAt(LowerStr(p), w, i)
    ensures (forall k :: 0 <= k < |typed| ==> IsSpace(typed[k])) ==> FilterProfessions(profs, typed) == profs
  {
    var words := SplitWords(LowerStr(typed));
    KeepMatchingSpec(profs, words);
    forall p, w | w in words
      ensures Contains(LowerStr(p), w) <==> exists i :: OccursAt(LowerStr(p), w, i)
    {
      ContainsAt(LowerStr(p), w);
    }
    if LowerStr(typed) == [] {
      assert typed == [];
      SplitWordsEmpty(LowerStr(typed));
    }
    if forall k :: 0 <= k < |typed| ==> IsSpace(typed[k]) {
      LowerKeepsSpaces(typed);
      SplitWordsEmpty(LowerStr(typed));
    }
  }
}
