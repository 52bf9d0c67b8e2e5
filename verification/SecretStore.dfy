/**
 The line-preserving secret store. Text is a sequence of code points, lone surrogates included,
 because Python strings can hold them; the file is its decoded text.
 */
module SecretStore {
  import opened Common

  type Code = c: int | 0 <= c < 0x11_0000
  type Text = seq<Code>

  const LF: Code := 10
  const CR: Code := 13
  const NUL: Code := 0
  const HASH: Code := 35
  const EQ: Code := 61
  const BOM: Code := 0xFEFF

  /** `str.isspace` on one code point. */
  predicate IsSpace(c: Code) {
    || 9 <= c <= 13 || 28 <= c <= 32 || c == 0x85 || c == 0xA0 || c == 0x1680 || 0x2000 <= c <= 0x200A
    || c == 0x2028 || c == 0x2029 || c == 0x202F || c == 0x205F || c == 0x3000
  }

  predicate Blank(s: Text) { forall i :: 0 <= i < |s| ==> IsSpace(s[i]) }

  function LStrip(s: Text): (r: Text)
    ensures |r| <= |s| && r == s[|s| - |r|..]
    ensures r == [] || !IsSpace(r[0])
    ensures r == [] <==> Blank(s)
  {
    if s != [] && IsSpace(s[0]) then
      var r := LStrip(s[1..]);
      assert s[1..][|s| - 1 - |r|..] == s[|s| - |r|..];
      assert Blank(s[1..]) <==> Blank(s) by { assert s == [s[0]] + s[1..]; }
      r
    else s
  }

  function RStrip(s: Text): (r: Text)
    ensures |r| <= |s| && r == s[..|r|]
    ensures r == [] || !IsSpace(r[|r| - 1])
    ensures s != [] && !IsSpace(s[0]) ==> r != []
  {
    if s != [] && IsSpace(s[|s| - 1]) then RStrip(s[..|s| - 1]) else s
  }

  function Strip(s: Text): Text { RStrip(LStrip(s)) }

  lemma {:induction false} LeftCut(s: Text)
    ensures forall i :: 0 <= i < |s| - |LStrip(s)| ==> IsSpace(s[i])
  {
    if s != [] && IsSpace(s[0]) {
      LeftCut(s[1..]);
      forall i | 0 <= i < |s| - |LStrip(s)| ensures IsSpace(s[i]) {
        if i > 0 { assert s[i] == s[1..][i - 1]; }
      }
    }
  }

  lemma {:induction false} RightCut(s: Text)
    ensures forall i :: |RStrip(s)| <= i < |s| ==> IsSpace(s[i])
  {
    if s != [] && IsSpace(s[|s| - 1]) { RightCut(s[..|s| - 1]); }
  }

  /** Stripping cuts spaces at both ends, all of them and nothing else. */
  lemma {:induction false} StripCuts(s: Text)
    ensures exists i, j :: 0 <= i <= j <= |s| && Cuts(s, i, j) && Strip(s) == s[i..j]
  {
    var l, r := LStrip(s), Strip(s);
    LeftCut(s);
    RightCut(l);
    CutsAround(s, l, r);
    var i := |s| - |l|;
    assert 0 <= i <= i + |r| <= |s| && Cuts(s, i, i + |r|) && r == s[i..i + |r|];
  }

  lemma {:induction false} CutsAround(s: Text, l: Text, r: Text)
    requires |l| <= |s| && l == s[|s| - |l|..] && |r| <= |l| && r == l[..|r|]
    requires forall i :: 0 <= i < |s| - |l| ==> IsSpace(s[i])
    requires forall i :: |r| <= i < |l| ==> IsSpace(l[i])
    requires (l == [] || !IsSpace(l[0])) && (r == [] || !IsSpace(r[|r| - 1]))
    ensures
      var i := |s| - |l|;
      Cuts(s, i, i + |r|) && r == s[i..i + |r|]
  {
    var i := |s| - |l|;
    forall k | i + |r| <= k < |s| ensures IsSpace(s[k]) { assert s[k] == l[k - i]; }
    if r != [] { assert r[0] == l[0] == s[i] && r[|r| - 1] == s[i + |r| - 1]; }
  }

  predicate Cuts(s: Text, i: int, j: int)
    requires 0 <= i <= j <= |s|
  {
    && (forall k :: 0 <= k < i ==> IsSpace(s[k])) && (forall k :: j <= k < |s| ==> IsSpace(s[k]))
    && (i < j ==> !IsSpace(s[i]) && !IsSpace(s[j - 1]))
  }

  // ---------------------------------------------------------------- lines

  predicate NameStart(c: Code) { 65 <= c <= 90 || c == 95 }
  predicate NameChar(c: Code) { NameStart(c) || 48 <= c <= 57 }

  predicate IsName(n: Text) { n != [] && NameStart(n[0]) && forall i :: 0 <= i < |n| ==> NameChar(n[i]) }

  /** Blank lines and comments. */
  predicate Skipped(line: Text) { Blank(line) || LStrip(line)[0] == HASH }

  /** The position of the first `=`, or the length. */
  function Cut(line: Text): (k: nat)
    ensures k <= |line|
    ensures forall i :: 0 <= i < k ==> line[i] != EQ
    ensures k < |line| ==> line[k] == EQ
  {
    if line == [] || line[0] == EQ then 0 else 1 + Cut(line[1..])
  }

  function NameOf(line: Text): Text { line[..Cut(line)] }
  function ValueOf(line: Text): Text { if Cut(line) < |line| then line[Cut(line) + 1..] else [] }

  predicate IsEntry(line: Text) { Cut(line) < |line| && IsName(NameOf(line)) && LF !in ValueOf(line) }

  function Line(name: Text, value: Text): Text { name + [EQ] + value }

  lemma {:induction false} CutIs(line: Text, k: nat)
    requires k < |line| && line[k] == EQ && forall i :: 0 <= i < k ==> line[i] != EQ
    ensures Cut(line) == k
  {
    if k > 0 { CutIs(line[1..], k - 1); }
  }

  /** An entry line gives back its name and value, and is no comment. */
  lemma {:induction false} LineReads(name: Text, value: Text)
    requires IsName(name)
    ensures NameOf(Line(name, value)) == name && ValueOf(Line(name, value)) == value
    ensures Cut(Line(name, value)) < |Line(name, value)|
    ensures !Skipped(Line(name, value))
  {
    var line := Line(name, value);
    assert line[|name|] == EQ;
    assert forall i :: 0 <= i < |name| ==> line[i] == name[i];
    CutIs(line, |name|);
    assert line[0] == name[0];
    assert LStrip(line) == line;
  }

  /** The characters the store tells apart. */
  lemma {:induction false} Characters(c: Code)
    ensures IsSpace(c) <==> c in {
      9, 10, 11, 12, 13, 28, 29, 30, 31, 32, 133, 160, 5760, 8192, 8193, 8194, 8195, 8196, 8197, 8198, 8199, 8200, 8201,
      8202, 8232, 8233, 8239, 8287, 12288}
    ensures NameStart(c) <==> 'A' as int <= c <= 'Z' as int || c == '_' as int
    ensures NameChar(c) <==> 'A' as int <= c <= 'Z' as int || c == '_' as int || '0' as int <= c <= '9' as int
    ensures HASH == '#' as int && EQ == '=' as int && LF == '\n' as int && CR == '\r' as int && NUL == '\0' as int && BOM == 65279
  {
  }

  /** A line is passed over if and only if it is blank or its first character that is not a space is `#`. */
  lemma {:induction false} SkippedIs(line: Text)
    ensures Skipped(line) <==>
            Blank(line) || exists k: nat :: k < |line| && line[k] == '#' as int && Blank(line[..k])
  {
    var i := |line| - |LStrip(line)|;
    LeftCut(line);
    if !Blank(line) {
      assert Blank(line[..i]) && !IsSpace(line[i]);
      forall k: nat | k < |line| && line[k] == '#' as int && Blank(line[..k]) ensures k == i { }
    }
  }

  /** An entry is a name, the first `=`, and the rest of the line. */
  lemma {:induction false} EntryIs(line: Text)
    ensures IsEntry(line) <==> exists name, value :: IsName(name) && LF !in value && line == Line(name, value)
    ensures IsEntry(line) ==> line == Line(NameOf(line), ValueOf(line))
  {
    if IsEntry(line) {
      assert line == Line(NameOf(line), ValueOf(line));
    }
    forall name, value | IsName(name) && LF !in value && line == Line(name, value) ensures IsEntry(line) {
      LineReads(name, value);
    }
  }

  lemma {:induction false} NameIs(n: Text)
    ensures IsName(n) <==> n != [] && (forall i :: 0 <= i < |n| ==> NameChar(n[i])) && !('0' as int <= n[0] <= '9' as int)
  {
    if n != [] { Characters(n[0]); }
  }

  // ---------------------------------------------------------------- the index

  datatype Slot = Slot(name: Text, line: nat)

  /** What the index sees of a line: the name of an entry, nothing of a blank or a comment. */
  function Head(line: Text): Option<Text> { if Skipped(line) then None else Some(NameOf(line)) }

  function Heads(lines: seq<Text>): (r: seq<Option<Text>>)
    ensures |r| == |lines|
  {
    seq(|lines|, i requires 0 <= i < |lines| => Head(lines[i]))
  }

  /** The index as the lines alone determine it. */
  function Slots(heads: seq<Option<Text>>, k: nat): seq<Slot> {
    if heads == [] then [] else SlotOf(heads[0], k) + Slots(heads[1..], k + 1)
  }

  function SlotOf(head: Option<Text>, k: nat): seq<Slot> { if head.None? then [] else [Slot(head.value, k)] }

  function Find(index: seq<Slot>, name: Text): Option<nat> {
    if index == [] then None else if index[0].name == name then Some(index[0].line) else Find(index[1..], name)
  }

  predicate Ascending(index: seq<Slot>) { forall i, j :: 0 <= i < j < |index| ==> index[i].line < index[j].line }
  predicate NamesDiffer(index: seq<Slot>) { forall i, j :: 0 <= i < j < |index| ==> index[i].name != index[j].name }

  function SlotNames(index: seq<Slot>): seq<Text> { seq(|index|, i requires 0 <= i < |index| => index[i].name) }

  lemma {:induction false} SlotsCons(head: Option<Text>, rest: seq<Option<Text>>, k: nat)
    ensures Slots([head] + rest, k) == SlotOf(head, k) + Slots(rest, k + 1)
  {
    assert ([head] + rest)[1..] == rest;
  }

  lemma {:induction false} SlotsAppend(a: seq<Option<Text>>, b: seq<Option<Text>>, k: nat)
    ensures Slots(a + b, k) == Slots(a, k) + Slots(b, k + |a|)
    decreases |a|
  {
    if a == [] {
      assert a + b == b;
    } else {
      var first, rest, last := SlotOf(a[0], k), Slots(a[1..], k + 1), Slots(b, k + |a|);
      assert Slots(a[1..] + b, k + 1) == rest + last by { SlotsAppend(a[1..], b, k + 1); }
      assert Slots(a + b, k) == first + (rest + last) by {
        assert a + b == [a[0]] + (a[1..] + b);
        SlotsCons(a[0], a[1..] + b, k);
      }
      Regroup(first, rest, last);
    }
  }

  lemma {:induction false} SlotsOne(head: Option<Text>, k: nat)
    ensures Slots([head], k) == SlotOf(head, k)
  {
    assert [head][1..] == [];
    assert Slots([], k + 1) == [];
  }

  predicate Points(s: Slot, heads: seq<Option<Text>>, k: nat) {
    k <= s.line < k + |heads| && heads[s.line - k] == Some(s.name)
  }

  lemma {:induction false} AscendingAppend(a: seq<Slot>, b: seq<Slot>, k: nat)
    requires Ascending(a) && Ascending(b)
    requires (forall s :: s in a ==> s.line <= k) && (forall s :: s in b ==> s.line > k)
    ensures Ascending(a + b)
  {
    assert forall i :: 0 <= i < |a| ==> a[i] in a;
    assert forall i :: 0 <= i < |b| ==> b[i] in b;
  }

  /** Each slot names an entry line, and the slots come in line order. */
  lemma {:induction false} SlotsAre(heads: seq<Option<Text>>, k: nat)
    ensures Ascending(Slots(heads, k))
    ensures forall s :: s in Slots(heads, k) ==> Points(s, heads, k)
    decreases |heads|
  {
    if heads != [] {
      var head, tail := SlotOf(heads[0], k), Slots(heads[1..], k + 1);
      SlotsAre(heads[1..], k + 1);
      forall s | s in tail ensures Points(s, heads, k) && s.line > k {
        assert Points(s, heads[1..], k + 1);
      }
      AscendingAppend(head, tail, k);
    }
  }

  /** Each entry line has its slot. */
  lemma {:induction false} SlotsCover(heads: seq<Option<Text>>, k: nat, i: nat)
    requires i < |heads| && heads[i].Some?
    ensures Slot(heads[i].value, k + i) in Slots(heads, k)
    decreases |heads|
  {
    if i > 0 {
      SlotsCover(heads[1..], k + 1, i - 1);
      assert Slot(heads[i].value, k + i) in Slots(heads[1..], k + 1);
    }
  }

  lemma {:induction false} FindIs(index: seq<Slot>, name: Text)
    ensures Find(index, name).None? <==> forall s :: s in index ==> s.name != name
    ensures Find(index, name).Some? ==> Slot(name, Find(index, name).value) in index
  {
    if index != [] {
      FindIs(index[1..], name);
      assert index == [index[0]] + index[1..];
    }
  }

  // ---------------------------------------------------------------- the store as a value

  datatype Book = Book(lines: seq<Text>, index: seq<Slot>)

  predicate OneLine(s: Text) { LF !in s && CR !in s }
  predicate Encodable(s: Text) { forall i :: 0 <= i < |s| ==> !(0xD800 <= s[i] <= 0xDFFF) }

  /** What a line of the store can be: a blank, a comment, or NAME=value without NUL. */
  predicate Fine(line: Text) {
    && OneLine(line) && Encodable(line)
    && (Skipped(line) || (IsEntry(line) && NUL !in line))
  }

  predicate AllFine(lines: seq<Text>) { forall i :: 0 <= i < |lines| ==> Fine(lines[i]) }

  predicate Indexed(b: Book) { b.index == Slots(Heads(b.lines), 0) && NamesDiffer(b.index) }

  predicate Valid(b: Book) { AllFine(b.lines) && Indexed(b) }

  function GetFrom(b: Book, name: Text): Option<Text>
    requires Indexed(b)
  {
    match Find(b.index, name)
    case None => None
    case Some(i) => Found(Heads(b.lines), name); Some(ValueOf(b.lines[i]))
  }

  predicate PutAccepts(name: Text, value: Text) {
    IsName(name) && OneLine(value) && NUL !in value && Encodable(value)
  }

  function PutInto(b: Book, name: Text, value: Text): Book
    requires Indexed(b)
  {
    match Find(b.index, name)
    case Some(i) => Found(Heads(b.lines), name); b.(lines := b.lines[i := Line(name, value)])
    case None => Book(b.lines + [Line(name, value)], b.index + [Slot(name, |b.lines|)])
  }

  /** The slots without one name, renumbered past the deleted line. */
  function Drop(index: seq<Slot>, removed: nat): seq<Slot> {
    if index == [] then []
    else if index[0].line == removed then Drop(index[1..], removed)
    else [if index[0].line > removed then Slot(index[0].name, index[0].line - 1) else index[0]] + Drop(index[1..], removed)
  }

  function Delete(b: Book, i: nat): Book
    requires i < |b.lines|
  {
    Book(b.lines[..i] + b.lines[i + 1..], Drop(b.index, i))
  }

  // ---------------------------------------------------------------- one line in its place

  predicate Lacks(heads: seq<Option<Text>>, name: Text) { forall i :: 0 <= i < |heads| ==> heads[i] != Some(name) }

  /** Line `i` is the only entry line that bears a name. */
  predicate Around(heads: seq<Option<Text>>, name: Text, i: nat) {
    i < |heads| && heads[i] == Some(name) && forall j :: 0 <= j < |heads| && j != i ==> heads[j] != Some(name)
  }

  lemma {:induction false} Missing(heads: seq<Option<Text>>, name: Text)
    ensures Find(Slots(heads, 0), name).None? <==> Lacks(heads, name)
  {
    var index := Slots(heads, 0);
    FindIs(index, name);
    SlotsAre(heads, 0);
    if Find(index, name).None? {
      forall i | 0 <= i < |heads| ensures heads[i] != Some(name) {
        if heads[i].Some? { SlotsCover(heads, 0, i); }
      }
    } else {
      assert Points(Slot(name, Find(index, name).value), heads, 0);
    }
  }

  lemma {:induction false} Unique(heads: seq<Option<Text>>, i: nat, j: nat)
    requires NamesDiffer(Slots(heads, 0))
    requires i < j < |heads| && heads[i].Some? && heads[j].Some?
    ensures heads[i] != heads[j]
  {
    var index := Slots(heads, 0);
    SlotsCover(heads, 0, i);
    SlotsCover(heads, 0, j);
    var x :| 0 <= x < |index| && index[x] == Slot(heads[i].value, i);
    var y :| 0 <= y < |index| && index[y] == Slot(heads[j].value, j);
    assert x != y;
  }

  lemma {:induction false} Found(heads: seq<Option<Text>>, name: Text)
    requires NamesDiffer(Slots(heads, 0)) && Find(Slots(heads, 0), name).Some?
    ensures Around(heads, name, Find(Slots(heads, 0), name).value)
  {
    var i := Find(Slots(heads, 0), name).value;
    FindIs(Slots(heads, 0), name);
    SlotsAre(heads, 0);
    assert Points(Slot(name, i), heads, 0);
    forall j | 0 <= j < |heads| && j != i ensures heads[j] != Some(name) {
      if heads[j].Some? {
        if j < i { Unique(heads, j, i); } else { Unique(heads, i, j); }
      }
    }
  }

  lemma {:induction false} DropAppend(a: seq<Slot>, b: seq<Slot>, i: nat)
    ensures Drop(a + b, i) == Drop(a, i) + Drop(b, i)
    decreases |a|
  {
    if a == [] {
      assert a + b == b;
    } else {
      assert (a + b)[0] == a[0] && (a + b)[1..] == a[1..] + b;
      DropAppend(a[1..], b, i);
    }
  }

  lemma {:induction false} DropBelow(a: seq<Slot>, i: nat)
    requires forall s :: s in a ==> s.line < i
    ensures Drop(a, i) == a
  {
    if a != [] {
      assert a[0] in a;
      DropBelow(a[1..], i);
    }
  }

  lemma {:induction false} DropOne(head: Option<Text>, k: nat, i: nat)
    ensures i <= k ==> Drop(SlotOf(head, k + 1), i) == SlotOf(head, k)
    ensures i == k ==> Drop(SlotOf(head, k), i) == []
  {
    assert Drop([], i) == [];
    if head.Some? {
      assert [Slot(head.value, k + 1)][1..] == [] && [Slot(head.value, k)][1..] == [];
    }
  }

  lemma {:induction false} DropAbove(heads: seq<Option<Text>>, k: nat, i: nat)
    requires i <= k
    ensures Drop(Slots(heads, k + 1), i) == Slots(heads, k)
    decreases |heads|
  {
    if heads != [] {
      var head, tail := SlotOf(heads[0], k + 1), Slots(heads[1..], k + 2);
      assert Slots(heads, k + 1) == head + tail;
      DropAbove(heads[1..], k + 1, i);
      DropAppend(head, tail, i);
      DropOne(heads[0], k, i);
      assert Slots(heads, k) == SlotOf(heads[0], k) + Slots(heads[1..], k + 1);
    }
  }

  lemma {:induction false} DropBefore(heads: seq<Option<Text>>, i: nat)
    requires |heads| <= i
    ensures Drop(Slots(heads, 0), i) == Slots(heads, 0)
  {
    SlotsAre(heads, 0);
    assert forall s :: s in Slots(heads, 0) ==> Points(s, heads, 0);
    DropBelow(Slots(heads, 0), i);
  }

  lemma {:induction false} DropFrom(head: Option<Text>, post: seq<Option<Text>>, i: nat)
    ensures Drop(SlotOf(head, i) + Slots(post, i + 1), i) == Slots(post, i)
  {
    DropAppend(SlotOf(head, i), Slots(post, i + 1), i);
    DropAbove(post, i, i);
    DropOne(head, i, i);
  }

  /** Deleting a line and renumbering gives the index of the lines that are left. */
  lemma {:induction false} DropIsExact(heads: seq<Option<Text>>, i: nat)
    requires i < |heads|
    ensures Drop(Slots(heads, 0), i) == Slots(heads[..i] + heads[i + 1..], 0)
  {
    var pre, post := heads[..i], heads[i + 1..];
    assert heads == pre + ([heads[i]] + post);
    DropMiddle(pre, heads[i], post);
  }

  lemma {:induction false} DropMiddle(pre: seq<Option<Text>>, head: Option<Text>, post: seq<Option<Text>>)
    ensures Drop(Slots(pre + ([head] + post), 0), |pre|) == Slots(pre + post, 0)
  {
    var n, first, rest := |pre|, Slots(pre, 0), SlotOf(head, |pre|) + Slots(post, |pre| + 1);
    assert Slots(pre + ([head] + post), 0) == first + rest by {
      SlotsAppend(pre, [head] + post, 0);
      SlotsCons(head, post, n);
    }
    assert Drop(first + rest, n) == Drop(first, n) + Drop(rest, n) by { DropAppend(first, rest, n); }
    assert Drop(first, n) == first by { DropBefore(pre, n); }
    assert Drop(rest, n) == Slots(post, n) by { DropFrom(head, post, n); }
    assert Slots(pre + post, 0) == first + Slots(post, n) by { SlotsAppend(pre, post, 0); }
  }

  // ---------------------------------------------------------------- put and delete keep the store valid

  predicate Ordinary(c: Code) { c != LF && c != CR && c != NUL && !(0xD800 <= c <= 0xDFFF) }

  predicate AllOrdinary(s: Text) { forall i :: 0 <= i < |s| ==> Ordinary(s[i]) }

  lemma {:induction false} OrdinaryLine(name: Text, value: Text)
    requires IsName(name) && AllOrdinary(value)
    ensures AllOrdinary(Line(name, value))
  {
    var line := Line(name, value);
    forall i | 0 <= i < |line| ensures Ordinary(line[i]) {
      if i < |name| { assert NameChar(name[i]); }
    }
  }

  lemma {:induction false} OrdinaryIs(s: Text)
    ensures AllOrdinary(s) <==> OneLine(s) && NUL !in s && Encodable(s)
  {
    if OneLine(s) && NUL !in s && Encodable(s) {
      forall i | 0 <= i < |s| ensures Ordinary(s[i]) { assert s[i] in s; }
    }
  }

  lemma {:induction false} FineLine(name: Text, value: Text)
    requires PutAccepts(name, value)
    ensures Fine(Line(name, value))
  {
    var line := Line(name, value);
    OrdinaryIs(value);
    OrdinaryLine(name, value);
    OrdinaryIs(line);
    assert IsEntry(line) by {
      LineReads(name, value);
    }
  }

  lemma {:induction false} StillFine(lines: seq<Text>, lines': seq<Text>, line: Text)
    requires AllFine(lines) && Fine(line)
    requires forall i :: 0 <= i < |lines'| ==> lines'[i] in lines || lines'[i] == line
    ensures AllFine(lines')
  {
    forall i | 0 <= i < |lines'| ensures Fine(lines'[i]) {
      if lines'[i] != line {
        var j :| 0 <= j < |lines| && lines[j] == lines'[i];
        assert Fine(lines[j]);
      }
    }
  }

  lemma {:induction false} HeadsAppend(a: seq<Text>, b: seq<Text>)
    ensures Heads(a + b) == Heads(a) + Heads(b)
  {
  }

  lemma {:induction false} HeadsSlice(lines: seq<Text>, i: nat)
    requires i < |lines|
    ensures Heads(lines[..i]) == Heads(lines)[..i] && Heads(lines[i + 1..]) == Heads(lines)[i + 1..]
  {
  }

  lemma {:induction false} HeadsUpdate(lines: seq<Text>, i: nat, line: Text)
    requires i < |lines|
    ensures Heads(lines[i := line]) == Heads(lines)[i := Head(line)]
  {
  }

  lemma {:induction false} ReplaceIndexed(b: Book, i: nat, line: Text)
    requires Indexed(b) && i < |b.lines| && Head(line) == Heads(b.lines)[i]
    ensures Indexed(b.(lines := b.lines[i := line]))
  {
    HeadsUpdate(b.lines, i, line);
    assert Heads(b.lines)[i := Head(line)] == Heads(b.lines);
  }

  lemma {:induction false} AppendIndexed(b: Book, name: Text, line: Text)
    requires Indexed(b) && Find(b.index, name).None? && Head(line) == Some(name)
    ensures Indexed(Book(b.lines + [line], b.index + [Slot(name, |b.lines|)]))
  {
    AppendSlots(Heads(b.lines), name);
    AppendHeads(b.lines, name, line);
    AppendDiffers(b.index, name, |b.lines|);
  }

  lemma {:induction false} AppendSlots(heads: seq<Option<Text>>, name: Text)
    ensures Slots(heads + [Some(name)], 0) == Slots(heads, 0) + [Slot(name, |heads|)]
  {
    SlotsAppend(heads, [Some(name)], 0);
    SlotsOne(Some(name), |heads|);
  }

  lemma {:induction false} AppendHeads(lines: seq<Text>, name: Text, line: Text)
    requires Head(line) == Some(name)
    ensures Heads(lines + [line]) == Heads(lines) + [Some(name)]
  {
  }

  lemma {:induction false} PutKeeps(b: Book, name: Text, value: Text)
    requires Valid(b) && PutAccepts(name, value)
    ensures Valid(PutInto(b, name, value))
  {
    var line := Line(name, value);
    FineLine(name, value);
    assert Head(line) == Some(name) by { LineReads(name, value); }
    if Find(b.index, name).Some? {
      var i := Find(b.index, name).value;
      Found(Heads(b.lines), name);
      ReplaceKeeps(b, i, line);
    } else {
      AppendKeeps(b, name, line);
    }
  }

  lemma {:induction false} ReplaceKeeps(b: Book, i: nat, line: Text)
    requires Valid(b) && Fine(line) && i < |b.lines| && Head(line) == Heads(b.lines)[i]
    ensures Valid(b.(lines := b.lines[i := line]))
  {
    assert Indexed(b.(lines := b.lines[i := line])) by { ReplaceIndexed(b, i, line); }
    assert AllFine(b.lines[i := line]) by { StillFine(b.lines, b.lines[i := line], line); }
  }

  lemma {:induction false} AppendKeeps(b: Book, name: Text, line: Text)
    requires Valid(b) && Fine(line) && Find(b.index, name).None? && Head(line) == Some(name)
    ensures Valid(Book(b.lines + [line], b.index + [Slot(name, |b.lines|)]))
  {
    AppendIndexed(b, name, line);
    StillFine(b.lines, b.lines + [line], line);
  }

  lemma {:induction false} AppendDiffers(index: seq<Slot>, name: Text, k: nat)
    requires NamesDiffer(index) && Find(index, name).None?
    ensures NamesDiffer(index + [Slot(name, k)])
  {
    FindIs(index, name);
    assert forall i :: 0 <= i < |index| ==> index[i] in index;
  }

  function NameSet(index: seq<Slot>): set<Text> { set s | s in index :: s.name }

  lemma {:induction false} ConsDiffers(s: Slot, rest: seq<Slot>)
    ensures NamesDiffer([s] + rest) <==> NamesDiffer(rest) && s.name !in NameSet(rest)
  {
    var all := [s] + rest;
    if NamesDiffer(all) {
      forall x, y | 0 <= x < y < |rest| ensures rest[x].name != rest[y].name {
        assert all[x + 1].name != all[y + 1].name;
      }
      forall t | t in rest ensures t.name != s.name {
        var x :| 0 <= x < |rest| && rest[x] == t;
        assert all[0].name != all[x + 1].name;
      }
    } else {
      var x, y :| 0 <= x < y < |all| && all[x].name == all[y].name;
      assert rest[y - 1] in rest && all[y] == rest[y - 1];
      assert x > 0 ==> all[x] == rest[x - 1];
    }
  }

  lemma {:induction false} DropSubset(index: seq<Slot>, i: nat)
    requires NamesDiffer(index)
    ensures NamesDiffer(Drop(index, i)) && NameSet(Drop(index, i)) <= NameSet(index)
  {
    if index != [] {
      var head, rest := index[0], index[1..];
      assert index == [head] + rest;
      ConsDiffers(head, rest);
      DropSubset(rest, i);
      var moved := if head.line > i then Slot(head.name, head.line - 1) else head;
      ConsDiffers(moved, Drop(rest, i));
      assert NameSet(index) == {head.name} + NameSet(rest);
      assert NameSet([moved] + Drop(rest, i)) == {head.name} + NameSet(Drop(rest, i));
    }
  }

  lemma {:induction false} DeleteKeeps(b: Book, i: nat)
    requires Valid(b) && i < |b.lines|
    ensures Valid(Delete(b, i))
  {
    DropIsExact(Heads(b.lines), i);
    DropSubset(b.index, i);
    HeadsSlice(b.lines, i);
    HeadsAppend(b.lines[..i], b.lines[i + 1..]);
    assert Fine(b.lines[i]);
    StillFine(b.lines, Delete(b, i).lines, b.lines[i]);
  }
}
