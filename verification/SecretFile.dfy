/** Loading and saving the secret store, the store as it is mutated, and the commands that use it. */
module SecretFile {
  import opened Common
  import opened SecretStore
  import opened SecretMap

  // ---------------------------------------------------------------- file text

  /** The file as decoding leaves it: missing, not UTF-8, or text with the byte order mark still in front. */
  datatype File = NoFile | Garbled | Decoded(text: Text)

  function DropMark(t: Text): Text { if t != [] && t[0] == BOM then t[1..] else t }

  /** Universal newlines: CR LF and a lone CR both read as LF. */
  function Translate(t: Text): Text {
    if t == [] then []
    else if t[0] == CR then [LF] + Translate(if |t| > 1 && t[1] == LF then t[2..] else t[1..])
    else [t[0]] + Translate(t[1..])
  }

  function Split(t: Text): (r: seq<Text>)
    ensures r != []
  {
    if t == [] then [[]]
    else if t[0] == LF then [[]] + Split(t[1..])
    else var r := Split(t[1..]); [[t[0]] + r[0]] + r[1..]
  }

  function DropLast(lines: seq<Text>): seq<Text>
    requires lines != []
  {
    if lines[|lines| - 1] == [] then lines[..|lines| - 1] else lines
  }

  function LinesOf(text: Text): seq<Text> { DropLast(Split(Translate(DropMark(text)))) }

  function Join(lines: seq<Text>): Text { if lines == [] then [] else (lines[0] + [LF]) + Join(lines[1..]) }

  lemma {:induction false} SplitLine(line: Text, rest: Text)
    requires LF !in line
    ensures Split((line + [LF]) + rest) == [line] + Split(rest)
  {
    var t := (line + [LF]) + rest;
    if line == [] {
      assert t[0] == LF && t[1..] == rest;
    } else {
      assert t[0] == line[0] && line[0] in line && t[1..] == (line[1..] + [LF]) + rest;
      SplitLine(line[1..], rest);
      assert [line[0]] + line[1..] == line;
    }
  }

  lemma {:induction false} SplitJoin(lines: seq<Text>)
    requires forall i :: 0 <= i < |lines| ==> LF !in lines[i]
    ensures Split(Join(lines)) == lines + [[]]
  {
    if lines != [] {
      SplitLine(lines[0], Join(lines[1..]));
      SplitJoin(lines[1..]);
      assert lines == [lines[0]] + lines[1..];
    }
  }

  lemma {:induction false} TranslateKeeps(t: Text)
    requires CR !in t
    ensures Translate(t) == t
  {
    if t != [] {
      assert t[0] in t;
      TranslateKeeps(t[1..]);
    }
  }

  lemma {:induction false} TranslateChars(t: Text)
    ensures CR !in Translate(t)
    ensures forall c :: c in Translate(t) ==> c == LF || c in t
    decreases |t|
  {
    if t != [] {
      TranslateChars(if t[0] == CR && |t| > 1 && t[1] == LF then t[2..] else t[1..]);
    }
  }

  lemma {:induction false} SplitChars(t: Text)
    ensures forall line, c :: line in Split(t) && c in line ==> c != LF && c in t
  {
    if t != [] {
      SplitChars(t[1..]);
      var r := Split(t[1..]);
      assert r[0] in r;
      assert forall line :: line in r[1..] ==> line in r;
    }
  }

  /** Text without CR comes back from its lines, with a final line break if it lacked one. */
  function Ended(t: Text): Text { if t == [] || t[|t| - 1] == LF then t else t + [LF] }

  lemma {:induction false} JoinFront(c: Code, r: seq<Text>)
    requires r != []
    ensures Join([[c] + r[0]] + r[1..]) == [c] + Join(r)
  {
    var s := [[c] + r[0]] + r[1..];
    assert s[1..] == r[1..];
    assert (([c] + r[0]) + [LF]) + Join(r[1..]) == [c] + ((r[0] + [LF]) + Join(r[1..]));
  }

  lemma {:induction false} JoinEmptyFront(r: seq<Text>)
    ensures Join([[]] + r) == [LF] + Join(r)
  {
    var s: seq<Text> := [[]] + r;
    assert s[1..] == r && s[0] + [LF] == [LF];
  }

  lemma {:induction false} JoinSplit(t: Text)
    ensures Join(Split(t)) == t + [LF]
  {
    if t == [] {
      assert Split(t) == [[]];
      JoinBlank();
    } else {
      JoinSplit(t[1..]);
      assert t == [t[0]] + t[1..];
      if t[0] == LF { JoinEmptyFront(Split(t[1..])); } else { JoinFront(t[0], Split(t[1..])); }
    }
  }

  lemma {:induction false} SplitEnds(t: Text)
    ensures Split(t)[|Split(t)| - 1] == [] <==> t == [] || t[|t| - 1] == LF
  {
    if t != [] { SplitEnds(t[1..]); }
  }

  lemma {:induction false} JoinAppend(a: seq<Text>, b: seq<Text>)
    ensures Join(a + b) == Join(a) + Join(b)
    decreases |a|
  {
    if a == [] {
      assert a + b == b;
    } else {
      assert (a + b)[0] == a[0] && (a + b)[1..] == a[1..] + b;
      JoinAppend(a[1..], b);
      Regroup(a[0] + [LF], Join(a[1..]), Join(b));
    }
  }

  lemma {:induction false} JoinBlank()
    ensures Join([[]]) == [LF]
  {
    var one: seq<Text> := [[]];
    assert one[1..] == [] && Join(one[1..]) == [];
    assert Join(one) == (one[0] + [LF]) + Join(one[1..]);
  }

  lemma {:induction false} JoinLines(t: Text)
    ensures Join(DropLast(Split(t))) == Ended(t)
  {
    JoinSplit(t);
    SplitEnds(t);
    var r := Split(t);
    if r[|r| - 1] == [] {
      var u := Join(r[..|r| - 1]);
      assert r == r[..|r| - 1] + [[]];
      JoinAppend(r[..|r| - 1], [[]]);
      assert Join([[]]) == [LF] by { JoinBlank(); }
      assert (u + [LF])[..|u|] == u && (t + [LF])[..|t|] == t;
    }
  }

  lemma {:induction false} JoinChars(lines: seq<Text>)
    requires forall i :: 0 <= i < |lines| ==> CR !in lines[i]
    ensures CR !in Join(lines)
  {
    if lines != [] { JoinChars(lines[1..]); }
  }

  lemma {:induction false} NoMarkInFront(line: Text)
    requires Fine(line) && line != []
    ensures line[0] != BOM
  {
    assert !IsSpace(line[0]) ==> LStrip(line) == line;
    if !Skipped(line) {
      assert NameOf(line)[0] == line[0];
    }
  }

  /** What was saved from fine lines reads back as the same lines. */
  lemma {:induction false} LinesReadBack(lines: seq<Text>)
    requires AllFine(lines)
    ensures LinesOf(Join(lines)) == lines
  {
    var t := Join(lines);
    forall i | 0 <= i < |lines| ensures LF !in lines[i] && CR !in lines[i] { assert Fine(lines[i]); }
    JoinChars(lines);
    if lines != [] {
      assert Fine(lines[0]);
      if lines[0] != [] { NoMarkInFront(lines[0]); }
      assert t[0] == if lines[0] == [] then LF else lines[0][0];
    }
    TranslateKeeps(t);
    SplitJoin(lines);
  }

  /** Lines of a decoded file hold no line break and no surrogate. */
  lemma {:induction false} LinesAreOneLine(text: Text)
    requires Encodable(text)
    ensures forall i :: 0 <= i < |LinesOf(text)| ==> OneLine(LinesOf(text)[i]) && Encodable(LinesOf(text)[i])
  {
    var d := DropMark(text);
    var t := Translate(d);
    TranslateChars(d);
    SplitChars(t);
    var lines := LinesOf(text);
    forall i | 0 <= i < |lines| ensures OneLine(lines[i]) && Encodable(lines[i]) {
      assert lines[i] in Split(t);
      forall j | 0 <= j < |lines[i]| ensures !(0xD800 <= lines[i][j] <= 0xDFFF) {
        var c := lines[i][j];
        assert c in t && c in d;
        var x :| 0 <= x < |d| && d[x] == c;
        assert c in text;
      }
    }
  }

  /** A text can be translated in parts, unless a CR LF is torn apart. */
  lemma {:induction false} TranslateAppend(a: Text, b: Text)
    requires b == [] || b[0] != LF
    ensures Translate(a + b) == Translate(a) + Translate(b)
    decreases |a|
  {
    if a == [] {
      assert a + b == b;
    } else {
      var k := if a[0] == CR && |a| > 1 && a[1] == LF then 2 else 1;
      var c := if a[0] == CR then LF else a[0];
      TranslateAppend(a[k..], b);
      TranslateFront(a, b, k);
      Regroup([c], Translate(a[k..]), Translate(b));
    }
  }

  /** One step of the translation does not look past what it reads. */
  lemma {:induction false} TranslateFront(a: Text, b: Text, k: nat)
    requires a != [] && (b == [] || b[0] != LF) && k == if a[0] == CR && |a| > 1 && a[1] == LF then 2 else 1
    ensures
      var c := if a[0] == CR then LF else a[0];
      Translate(a + b) == [c] + Translate(a[k..] + b) && Translate(a) == [c] + Translate(a[k..])
  {
    assert (a + b)[k..] == a[k..] + b;
  }

  /** CR LF and a lone CR are one line break each, wherever they stand. */
  lemma {:induction false} TranslateBreaks(a: Text, b: Text)
    ensures Translate(a + ([CR, LF] + b)) == Translate(a) + ([LF] + Translate(b))
    ensures (b == [] || b[0] != LF) ==> Translate(a + ([CR] + b)) == Translate(a) + ([LF] + Translate(b))
  {
    TranslateAppend(a, [CR, LF] + b);
    TranslateAppend(a, [CR] + b);
    assert ([CR, LF] + b)[2..] == b && ([CR] + b)[1..] == b;
  }

  /** One mark in front is not part of the lines. */
  lemma {:induction false} MarkIsDropped(t: Text)
    ensures LinesOf([BOM] + t) == DropLast(Split(Translate(t)))
    ensures t == [] || t[0] != BOM ==> LinesOf(t) == LinesOf([BOM] + t)
  {
    assert ([BOM] + t)[1..] == t;
  }

  // ---------------------------------------------------------------- building the index

  datatype Problem = HasNul | NotEntry | NoValue | Repeats(first: nat)
  datatype Trouble = Trouble(number: nat, problem: Problem)
  datatype Parsed = Index(index: seq<Slot>) | Refused(trouble: Trouble)

  /** What is wrong with a line, given the index of the lines before it. */
  function LineProblem(line: Text, index: seq<Slot>): Option<Problem> {
    if Skipped(line) then None
    else if NUL in line then Some(HasNul)
    else if !IsEntry(line) then Some(NotEntry)
    else if Blank(ValueOf(line)) then Some(NoValue)
    else match Find(index, NameOf(line))
      case Some(first) => Some(Repeats(first + 1))
      case None => None
  }

  function ProblemAt(lines: seq<Text>, i: nat): Option<Problem>
    requires i < |lines|
  {
    LineProblem(lines[i], Slots(Heads(lines[..i]), 0))
  }

  function Problems(lines: seq<Text>): (r: seq<Option<Problem>>)
    ensures |r| == |lines|
  {
    seq(|lines|, i requires 0 <= i < |lines| => ProblemAt(lines, i))
  }

  /** The first line with a problem, counted from one. */
  function FirstTrouble(problems: seq<Option<Problem>>, i: nat): Option<Trouble>
    decreases |problems| - i
  {
    if i >= |problems| then None
    else match problems[i]
      case Some(p) => Some(Trouble(i + 1, p))
      case None => FirstTrouble(problems, i + 1)
  }

  function Parse(lines: seq<Text>): Parsed {
    match FirstTrouble(Problems(lines), 0)
    case Some(t) => Refused(t)
    case None => Index(Slots(Heads(lines), 0))
  }

  lemma {:induction false} NoTrouble(problems: seq<Option<Problem>>, i: nat)
    ensures FirstTrouble(problems, i).None? <==> forall j :: i <= j < |problems| ==> problems[j].None?
    decreases |problems| - i
  {
    if i < |problems| { NoTrouble(problems, i + 1); }
  }

  predicate Fresh(heads: seq<Option<Text>>) {
    forall i, j :: 0 <= i < j < |heads| && heads[i].Some? ==> heads[i] != heads[j]
  }

  lemma {:induction false} FreshNamesDiffer(heads: seq<Option<Text>>)
    ensures Fresh(heads) <==> NamesDiffer(Slots(heads, 0))
  {
    var index := Slots(heads, 0);
    SlotsAre(heads, 0);
    if Fresh(heads) {
      forall x, y | 0 <= x < y < |index| ensures index[x].name != index[y].name {
        assert Points(index[x], heads, 0) && Points(index[y], heads, 0);
      }
    }
    if NamesDiffer(index) {
      forall i, j | 0 <= i < j < |heads| && heads[i].Some? ensures heads[i] != heads[j] {
        if heads[j].Some? { Unique(heads, i, j); }
      }
    }
  }

  predicate HasValues(lines: seq<Text>) {
    forall i :: 0 <= i < |lines| ==> Skipped(lines[i]) || !Blank(ValueOf(lines[i]))
  }

  predicate Plain(lines: seq<Text>) { forall i :: 0 <= i < |lines| ==> OneLine(lines[i]) && Encodable(lines[i]) }

  /** No earlier entry line bears the name of line `i`. */
  predicate FreshAt(heads: seq<Option<Text>>, i: nat)
    requires i < |heads|
  {
    forall j :: 0 <= j < i && heads[j].Some? ==> heads[j] != heads[i]
  }

  lemma {:induction false} FreshFind(heads: seq<Option<Text>>, i: nat, name: Text)
    requires i < |heads| && heads[i] == Some(name)
    ensures Find(Slots(heads[..i], 0), name).None? <==> FreshAt(heads, i)
  {
    Missing(heads[..i], name);
    if Lacks(heads[..i], name) {
      assert forall j :: 0 <= j < i ==> heads[j] == heads[..i][j];
    }
  }

  predicate Clean(line: Text) { Skipped(line) || (NUL !in line && IsEntry(line) && !Blank(ValueOf(line))) }

  lemma {:induction false} NoProblemAt(lines: seq<Text>, i: nat)
    requires i < |lines|
    ensures ProblemAt(lines, i).None? <==> Clean(lines[i]) && FreshAt(Heads(lines), i)
  {
    var line, heads := lines[i], Heads(lines);
    assert heads[i] == Head(line);
    assert Heads(lines[..i]) == heads[..i];
    if !Skipped(line) { FreshFind(heads, i, NameOf(line)); }
  }

  lemma {:induction false} CleanIs(line: Text)
    requires OneLine(line) && Encodable(line)
    ensures Clean(line) <==> Fine(line) && (Skipped(line) || !Blank(ValueOf(line)))
  {
  }

  predicate AllClean(lines: seq<Text>) { forall i :: 0 <= i < |lines| ==> Clean(lines[i]) }

  predicate NoProblems(problems: seq<Option<Problem>>) { forall i :: 0 <= i < |problems| ==> problems[i].None? }

  lemma {:induction false} CleanAre(lines: seq<Text>)
    requires Plain(lines)
    ensures AllClean(lines) <==> AllFine(lines) && HasValues(lines)
  {
    forall i | 0 <= i < |lines| ensures Clean(lines[i]) <==> Fine(lines[i]) && (Skipped(lines[i]) || !Blank(ValueOf(lines[i]))) {
      CleanIs(lines[i]);
    }
  }

  lemma {:induction false} FreshEach(heads: seq<Option<Text>>)
    ensures Fresh(heads) <==> forall i :: 0 <= i < |heads| ==> FreshAt(heads, i)
  {
    if forall i :: 0 <= i < |heads| ==> FreshAt(heads, i) {
      forall i, j | 0 <= i < j < |heads| && heads[i].Some? ensures heads[i] != heads[j] {
        assert FreshAt(heads, j);
      }
    }
  }

  lemma {:induction false} NoProblemsMeans(lines: seq<Text>)
    ensures NoProblems(Problems(lines)) <==> AllClean(lines) && Fresh(Heads(lines))
  {
    var heads := Heads(lines);
    FreshEach(heads);
    forall i | 0 <= i < |lines| ensures Problems(lines)[i].None? <==> Clean(lines[i]) && FreshAt(heads, i) {
      NoProblemAt(lines, i);
    }
  }

  lemma {:induction false} ParseMeans(lines: seq<Text>)
    ensures Parse(lines).Index? <==> NoProblems(Problems(lines))
    ensures Parse(lines).Index? ==> Parse(lines).index == Slots(Heads(lines), 0)
  {
    NoTrouble(Problems(lines), 0);
  }

  /** A file is accepted exactly when its lines make a valid store whose every entry has a value. */
  lemma {:induction false} ParseAccepts(lines: seq<Text>)
    requires Plain(lines)
    ensures Parse(lines).Index? <==> Valid(Book(lines, Slots(Heads(lines), 0))) && HasValues(lines)
  {
    ParseMeans(lines);
    NoProblemsMeans(lines);
    CleanAre(lines);
    FreshNamesDiffer(Heads(lines));
  }

  /** The first thing wrong with a line. */
  predicate Explains(p: Problem, line: Text, before: seq<Text>) {
    !Skipped(line) &&
    match p
    case HasNul => NUL in line
    case NotEntry => NUL !in line && !IsEntry(line)
    case NoValue => NUL !in line && IsEntry(line) && Blank(ValueOf(line))
    case Repeats(first) => Clean(line) && 1 <= first <= |before| && Head(before[first - 1]) == Some(NameOf(line))
  }

  lemma {:induction false} ProblemExplains(line: Text, before: seq<Text>)
    requires LineProblem(line, Slots(Heads(before), 0)).Some?
    ensures Explains(LineProblem(line, Slots(Heads(before), 0)).value, line, before)
  {
    var index, name := Slots(Heads(before), 0), NameOf(line);
    if Find(index, name).Some? {
      FindIs(index, name);
      SlotsAre(Heads(before), 0);
      assert Points(Slot(name, Find(index, name).value), Heads(before), 0);
    }
  }

  /** A refusal names the first bad line, counted from one, and the first thing wrong with it. */
  lemma {:induction false} WhyRefused(lines: seq<Text>, t: Trouble)
    requires Parse(lines) == Refused(t)
    ensures 1 <= t.number <= |lines| && Explains(t.problem, lines[t.number - 1], lines[..t.number - 1])
    ensures forall j :: 0 <= j < t.number - 1 ==> Clean(lines[j]) && FreshAt(Heads(lines), j)
  {
    var i := t.number - 1;
    FirstTroubleIs(Problems(lines), 0);
    assert ProblemAt(lines, i) == Some(t.problem);
    ProblemExplains(lines[i], lines[..i]);
    EarlierAreGood(lines, i);
  }

  lemma {:induction false} EarlierAreGood(lines: seq<Text>, n: nat)
    requires n <= |lines| && forall j :: 0 <= j < n ==> Problems(lines)[j].None?
    ensures forall j :: 0 <= j < n ==> Clean(lines[j]) && FreshAt(Heads(lines), j)
  {
    forall j | 0 <= j < n ensures Clean(lines[j]) && FreshAt(Heads(lines), j) {
      assert Problems(lines)[j] == ProblemAt(lines, j);
      NoProblemAt(lines, j);
    }
  }

  lemma {:induction false} FirstTroubleIs(problems: seq<Option<Problem>>, i: nat)
    ensures
      var t := FirstTrouble(problems, i);
      t.Some? ==>
        && i < t.value.number <= |problems| && problems[t.value.number - 1] == Some(t.value.problem)
        && forall j :: i <= j < t.value.number - 1 ==> problems[j].None?
    decreases |problems| - i
  {
    if i < |problems| { FirstTroubleIs(problems, i + 1); }
  }

  // ---------------------------------------------------------------- load and save

  datatype Loaded = Ok(book: Book) | NotUtf8 | Bad(trouble: Trouble)

  function Load(f: File): Loaded {
    match f
    case NoFile => Ok(Book([], []))
    case Garbled => NotUtf8
    case Decoded(text) =>
      match Parse(LinesOf(text))
      case Index(index) => Ok(Book(LinesOf(text), index))
      case Refused(t) => Bad(t)
  }

  /** No file makes an empty store; what cannot be decoded, or has a bad line, is refused for that. */
  lemma {:induction false} WhyNotLoaded(f: File)
    ensures f.NoFile? ==> Load(f) == Ok(Book([], []))
    ensures Load(f).NotUtf8? <==> f.Garbled?
    ensures forall t :: Load(f) == Bad(t) <==> f.Decoded? && Parse(LinesOf(f.text)) == Refused(t)
  {
  }

  lemma {:induction false} LoadedIsValid(f: File)
    requires Load(f).Ok? && (f.Decoded? ==> Encodable(f.text))
    ensures Valid(Load(f).book) && HasValues(Load(f).book.lines)
  {
    if f.Decoded? {
      LinesAreOneLine(f.text);
      ParseAccepts(LinesOf(f.text));
    }
  }

  /** Saving a loaded file unchanged writes its text back, with LF line ends and without the mark. */
  lemma {:induction false} LoadThenSave(text: Text)
    requires Load(Decoded(text)).Ok?
    ensures Join(Load(Decoded(text)).book.lines) == Ended(Translate(DropMark(text)))
  {
    JoinLines(Translate(DropMark(text)));
  }

  /** Loading what was saved gives the same lines and index, exactly when no entry's value is blank. */
  lemma {:induction false} SaveThenLoad(b: Book)
    requires Valid(b)
    ensures Load(Decoded(Join(b.lines))) == Ok(b) <==> HasValues(b.lines)
    ensures Load(Decoded(Join(b.lines))).Ok? <==> HasValues(b.lines)
  {
    LinesReadBack(b.lines);
    FineIsPlain(b.lines);
    ParseAccepts(b.lines);
    ParseMeans(b.lines);
    LoadMeans(Join(b.lines), b.lines);
  }

  lemma {:induction false} LoadMeans(text: Text, lines: seq<Text>)
    requires LinesOf(text) == lines
    ensures Load(Decoded(text)).Ok? <==> Parse(lines).Index?
    ensures Parse(lines).Index? ==> Load(Decoded(text)) == Ok(Book(lines, Parse(lines).index))
  {
  }

  lemma {:induction false} FineIsPlain(lines: seq<Text>)
    requires AllFine(lines)
    ensures Plain(lines)
  {
    forall i | 0 <= i < |lines| ensures OneLine(lines[i]) && Encodable(lines[i]) { assert Fine(lines[i]); }
  }

  predicate Sound(op: Op) { op.PutOp? ==> !Blank(op.value) }

  lemma {:induction false} PutHasValues(b: Book, name: Text, value: Text)
    requires Valid(b) && HasValues(b.lines) && PutAccepts(name, value)
    ensures HasValues(PutInto(b, name, value).lines) <==> !Blank(value)
  {
    var line := Line(name, value);
    LineReads(name, value);
    var lines' := PutInto(b, name, value).lines;
    if Find(b.index, name).Some? {
      Found(Heads(b.lines), name);
      assert lines'[Find(b.index, name).value] == line;
    } else {
      assert lines'[|b.lines|] == line;
    }
  }

  /** A put that the store itself accepts leaves a file that loads exactly when the value is not blank. */
  lemma {:induction false} PutThenReload(b: Book, name: Text, value: Text)
    requires Valid(b) && HasValues(b.lines) && PutAccepts(name, value)
    ensures Load(Decoded(Join(PutInto(b, name, value).lines))).Ok? <==> !Blank(value)
  {
    PutKeeps(b, name, value);
    PutHasValues(b, name, value);
    SaveThenLoad(PutInto(b, name, value));
  }

  lemma {:induction false} StepHasValues(b: Book, op: Op)
    requires Valid(b) && HasValues(b.lines) && Sound(op)
    ensures HasValues(Step(b, op).lines)
  {
    if op.PutOp? {
      if PutAccepts(op.name, op.value) { PutHasValues(b, op.name, op.value); }
    } else if Find(b.index, op.name).Some? {
      var i := Find(b.index, op.name).value;
      Found(Heads(b.lines), op.name);
      DeleteHasValues(b.lines, i);
    }
  }

  lemma {:induction false} DeleteHasValues(lines: seq<Text>, i: nat)
    requires HasValues(lines) && i < |lines|
    ensures HasValues(lines[..i] + lines[i + 1..])
  {
    var lines' := lines[..i] + lines[i + 1..];
    forall j | 0 <= j < |lines'| ensures Skipped(lines'[j]) || !Blank(ValueOf(lines'[j])) {
      var x := if j < i then j else j + 1;
      assert lines'[j] == lines[x];
    }
  }

  lemma {:induction false} StepsHaveValues(b: Book, ops: seq<Op>)
    requires Valid(b) && HasValues(b.lines) && forall i :: 0 <= i < |ops| ==> Sound(ops[i])
    ensures HasValues(Steps(b, ops).lines)
    decreases |ops|
  {
    if ops != [] {
      StepsHaveValues(b, ops[..|ops| - 1]);
      StepHasValues(Steps(b, ops[..|ops| - 1]), ops[|ops| - 1]);
    }
  }

  /** A file that loads still loads after any operations with checked values, as exactly the store that was saved. */
  lemma {:induction false} AnySession(f: File, ops: seq<Op>)
    requires Load(f).Ok? && (f.Decoded? ==> Encodable(f.text)) && forall i :: 0 <= i < |ops| ==> Sound(ops[i])
    ensures Valid(Load(f).book)
    ensures var r := Steps(Load(f).book, ops); Load(Decoded(Join(r.lines))) == Ok(r)
  {
    LoadedIsValid(f);
    StepsHaveValues(Load(f).book, ops);
    SaveThenLoad(Steps(Load(f).book, ops));
  }

  // ---------------------------------------------------------------- values from callers

  datatype Checked = Good(value: Text) | ManyLines | NulInside | Unencodable

  function CheckValue(value: Text): Checked {
    if LF in value || CR in value then ManyLines
    else if NUL in value then NulInside
    else if !Encodable(value) then Unencodable
    else Good(value)
  }

  /** What the prompt, the pipe and the import make of what they read: nothing if blank, else a checked value. */
  function CallerValue(raw: Text): Option<Checked> { if Strip(raw) == [] then None else Some(CheckValue(Strip(raw))) }

  lemma {:induction false} StripIs(raw: Text)
    ensures Strip(raw) == [] <==> Blank(raw)
    ensures Strip(raw) != [] ==> !Blank(Strip(raw))
  {
    var l := LStrip(raw);
    var r := RStrip(l);
    if r != [] { assert r[0] == l[0]; }
  }

  /** A caller's value is one the store accepts under any name and that reloads; the two checks refuse the same values. */
  lemma {:induction false} CallerValuesFit(raw: Text, name: Text)
    requires IsName(name)
    ensures CallerValue(raw).Some? && CallerValue(raw).value.Good? <==> !Blank(raw) && PutAccepts(name, Strip(raw))
    ensures CallerValue(raw).Some? && CallerValue(raw).value.Good? ==>
      CallerValue(raw).value.value == Strip(raw) && Sound(PutOp(name, Strip(raw)))
    ensures
      var v, many := Strip(raw), LF in Strip(raw) || CR in Strip(raw);
      && (CallerValue(raw) == Some(ManyLines) <==> many)
      && (CallerValue(raw) == Some(NulInside) <==> (!many && NUL in v))
      && (CallerValue(raw) == Some(Unencodable) <==> (!many && NUL !in v && !Encodable(v)))
  {
    StripIs(raw);
  }

  lemma {:induction false} AskedAgain(raw: Text)
    ensures CallerValue(raw).None? <==> Blank(raw)
  {
    StripIs(raw);
  }

  datatype Answer = Retry | Typed(text: Text)

  predicate Asks(a: Answer) { a.Retry? || Blank(a.text) }

  /** The prompt repeats until an answer is not blank: nothing before that answer is looked at. */
  method PromptValue(answers: seq<Answer>) returns (used: nat, r: Option<Checked>)
    ensures used <= |answers|
    ensures r.None? ==> used == |answers| && forall i :: 0 <= i < |answers| ==> Asks(answers[i])
    ensures r.Some? ==> used > 0 && !Asks(answers[used - 1]) && forall i :: 0 <= i < used - 1 ==> Asks(answers[i])
    ensures r.Some? ==> r == CallerValue(answers[used - 1].text)
  {
    used := 0;
    while used < |answers|
      invariant used <= |answers|
      invariant forall i :: 0 <= i < used ==> Asks(answers[i])
    {
      var a := answers[used];
      used := used + 1;
      if a.Typed? {
        var v := CallerValue(a.text);
        AskedAgain(a.text);
        if v.Some? { return used, v; }
      }
    }
    return used, None;
  }

  // ---------------------------------------------------------------- the store as it is mutated

  /** The index is built line by line; the first line that cannot be indexed is named. */
  method BuildIndex(lines: seq<Text>) returns (r: Parsed)
    ensures r == Parse(lines)
  {
    var index: seq<Slot> := [];
    ghost var problems := Problems(lines);
    for k := 0 to |lines|
      invariant index == Slots(Heads(lines[..k]), 0)
      invariant FirstTrouble(problems, 0) == FirstTrouble(problems, k)
    {
      GrowIndex(lines, k);
      var problem := LineProblem(lines[k], index);
      if problem.Some? { return Refused(Trouble(k + 1, problem.value)); }
      if Head(lines[k]).Some? { index := index + [Slot(Head(lines[k]).value, k)]; }
    }
    assert lines[..|lines|] == lines;
    return Index(index);
  }

  lemma {:induction false} GrowIndex(lines: seq<Text>, k: nat)
    requires k < |lines|
    ensures Slots(Heads(lines[..k + 1]), 0) == Slots(Heads(lines[..k]), 0) + SlotOf(Head(lines[k]), k)
  {
    HeadsGrow(lines, k);
    SlotsGrow(Heads(lines[..k]), Head(lines[k]));
  }

  lemma {:induction false} HeadsGrow(lines: seq<Text>, k: nat)
    requires k < |lines|
    ensures Heads(lines[..k + 1]) == Heads(lines[..k]) + [Head(lines[k])]
  {
  }

  lemma {:induction false} SlotsGrow(heads: seq<Option<Text>>, head: Option<Text>)
    ensures Slots(heads + [head], 0) == Slots(heads, 0) + SlotOf(head, |heads|)
  {
    SlotsAppend(heads, [head], 0);
    SlotsOne(head, |heads|);
  }

  lemma {:induction false} DropStep(index: seq<Slot>, k: nat, removed: nat)
    requires k < |index|
    ensures
      var s := index[k];
      var moved := if s.line > removed then Slot(s.name, s.line - 1) else s;
      Drop(index[k..], removed) == (if s.line == removed then [] else [moved]) + Drop(index[k + 1..], removed)
  {
    assert index[k..][1..] == index[k + 1..];
  }

  method Renumber(index: seq<Slot>, removed: nat) returns (r: seq<Slot>)
    ensures r == Drop(index, removed)
  {
    r := [];
    for k := 0 to |index|
      invariant Drop(index, removed) == r + Drop(index[k..], removed)
    {
      var s := index[k];
      DropStep(index, k, removed);
      if s.line != removed {
        r := r + [if s.line > removed then Slot(s.name, s.line - 1) else s];
      }
    }
  }

  method Render(lines: seq<Text>) returns (text: Text)
    ensures text == Join(lines)
  {
    text := [];
    for k := 0 to |lines|
      invariant text == Join(lines[..k])
    {
      assert lines[..k + 1] == lines[..k] + [lines[k]];
      JoinAppend(lines[..k], [lines[k]]);
      JoinOne(lines[k]);
      text := text + (lines[k] + [LF]);
    }
    assert lines[..|lines|] == lines;
  }

  lemma {:induction false} JoinEncodable(lines: seq<Text>)
    requires AllFine(lines)
    ensures Encodable(Join(lines))
  {
    if lines != [] {
      assert Fine(lines[0]);
      assert AllFine(lines[1..]) by {
        forall i | 0 <= i < |lines| - 1 ensures Fine(lines[1..][i]) { assert Fine(lines[i + 1]); }
      }
      JoinEncodable(lines[1..]);
    }
  }

  lemma {:induction false} DeleteIs(b: Book, name: Text)
    requires Valid(b)
    ensures Valid(Step(b, DeleteOp(name)))
    ensures Find(b.index, name).None? ==> Step(b, DeleteOp(name)) == b
    ensures Find(b.index, name).Some? ==>
      Find(b.index, name).value < |b.lines| && Step(b, DeleteOp(name)) == Delete(b, Find(b.index, name).value)
  {
    StepKeeps(b, DeleteOp(name));
    if Find(b.index, name).Some? { Found(Heads(b.lines), name); }
  }

  datatype PutResult = Replaced | Added | Rejected
  datatype Outcome = Saved(text: Text) | Failed

  class Store {
    var lines: seq<Text>
    var index: seq<Slot>

    function Contents(): Book
      reads this
    {
      Book(lines, index)
    }

    constructor (b: Book)
      ensures Contents() == b
    {
      lines, index := b.lines, b.index;
    }

    method Names() returns (names: seq<Text>)
      requires Valid(Contents())
      ensures |names| == |Entries(lines)|
      ensures forall i :: 0 <= i < |names| ==> names[i] == Entries(lines)[i].name
    {
      names := SlotNames(index);
      NamesAreOrdered(Contents());
    }

    method Get(name: Text) returns (value: Option<Text>)
      requires Valid(Contents())
      ensures value == Lookup(Entries(lines), name)
    {
      Missing(Heads(lines), name);
      match Find(index, name)
      case None =>
        CellsLack(lines, name);
        NotThere(Entries(lines), name, []);
        value := None;
      case Some(i) =>
        Found(Heads(lines), name);
        DeletedNames(Heads(lines), lines, name);
        RefinesKnown(Contents(), name, []);
        value := Some(ValueOf(lines[i]));
    }

    method Put(name: Text, value: Text) returns (r: PutResult)
      requires Valid(Contents())
      modifies this
      ensures Valid(Contents()) && Contents() == Step(old(Contents()), PutOp(name, value))
      ensures r.Rejected? <==> !PutAccepts(name, value)
      ensures r.Replaced? ==> Lookup(Entries(old(lines)), name).Some?
      ensures r.Added? ==> Lookup(Entries(old(lines)), name).None?
    {
      ghost var b := Contents();
      if !IsName(name) { return Rejected; }
      if LF in value || CR in value || NUL in value || !Encodable(value) { return Rejected; }
      PutKeeps(b, name, value);
      var line := Line(name, value);
      match Find(index, name)
      case Some(i) =>
        RefinesKnown(b, name, value);
        lines := lines[i := line];
        r := Replaced;
      case None =>
        RefinesNew(b, name, value);
        index := index + [Slot(name, |lines|)];
        lines := lines + [line];
        r := Added;
    }

    /** False where the source raises a key error. */
    method Delete(name: Text) returns (found: bool)
      requires Valid(Contents())
      modifies this
      ensures Valid(Contents()) && Contents() == Step(old(Contents()), DeleteOp(name))
      ensures found <==> Find(old(index), name).Some?
    {
      ghost var b := Contents();
      DeleteIs(b, name);
      var at := Find(index, name);
      if at.None? { return false; }
      var removed := at.value;
      index := Renumber(index, removed);
      lines := lines[..removed] + lines[removed + 1..];
      assert Contents() == SecretStore.Delete(b, removed);
      found := true;
    }

    /** What replaces the file: every line ended by LF. A valid store can always be encoded. */
    method Save() returns (text: Text)
      requires Valid(Contents())
      ensures text == Join(lines) && Encodable(text)
      ensures HasValues(lines) <==> Load(Decoded(text)) == Ok(Contents())
    {
      text := Render(lines);
      JoinEncodable(lines);
      SaveThenLoad(Contents());
    }
  }

  lemma {:induction false} JoinOne(line: Text)
    ensures Join([line]) == line + [LF]
  {
    assert [line][1..] == [] && Join([]) == [];
  }

  // ---------------------------------------------------------------- whole commands

  function Puts(names: seq<Text>, values: seq<Text>): (ops: seq<Op>)
    requires |names| == |values|
    ensures |ops| == |names|
  {
    seq(|names|, i requires 0 <= i < |names| => PutOp(names[i], values[i]))
  }

  lemma {:induction false} StepsPrefix(b: Book, ops: seq<Op>, i: nat)
    requires Valid(b) && i < |ops|
    ensures Steps(b, ops[..i + 1]) == Step(Steps(b, ops[..i]), ops[i])
  {
    assert ops[..i + 1][..i] == ops[..i];
  }

  predicate AcceptedUpTo(names: seq<Text>, values: seq<Text>, n: nat)
    requires n <= |names| == |values|
  {
    forall i :: 0 <= i < n ==> PutAccepts(names[i], values[i])
  }

  predicate AllAccepted(names: seq<Text>, values: seq<Text>)
    requires |names| == |values|
  {
    AcceptedUpTo(names, values, |names|)
  }

  /** The store after the first `done` operations on `b`. */
  ghost predicate Reached(b: Book, ops: seq<Op>, done: nat, now: Book) {
    Valid(b) && done <= |ops| && now == Steps(b, ops[..done])
  }

  lemma {:induction false} ReachedNext(b: Book, ops: seq<Op>, done: nat, now: Book)
    requires done < |ops| && Reached(b, ops, done, now)
    ensures Valid(now) && Reached(b, ops, done + 1, Step(now, ops[done]))
  {
    StepsPrefix(b, ops, done);
  }

  lemma {:induction false} AcceptedNext(names: seq<Text>, values: seq<Text>, n: nat)
    requires n < |names| == |values| && AcceptedUpTo(names, values, n) && PutAccepts(names[n], values[n])
    ensures AcceptedUpTo(names, values, n + 1)
  {
  }

  lemma {:induction false} RefusedSomewhere(names: seq<Text>, values: seq<Text>, i: nat)
    requires |names| == |values| && i < |names| && !PutAccepts(names[i], values[i])
    ensures !AllAccepted(names, values)
  {
  }

  method PutStep(store: Store, name: Text, value: Text) returns (ok: bool)
    requires Valid(store.Contents())
    modifies store
    ensures Valid(old(store.Contents())) && store.Contents() == Step(old(store.Contents()), PutOp(name, value))
    ensures ok <==> PutAccepts(name, value)
  {
    var r := store.Put(name, value);
    ok := !r.Rejected?;
  }

  method PutAll(store: Store, names: seq<Text>, values: seq<Text>) returns (done: nat)
    requires Valid(store.Contents()) && |names| == |values|
    modifies store
    ensures done <= |names| && Reached(old(store.Contents()), Puts(names, values), done, store.Contents())
    ensures done == |names| <==> AllAccepted(names, values)
    ensures done < |names| ==> !PutAccepts(names[done], values[done])
  {
    ghost var b, ops := store.Contents(), Puts(names, values);
    done := 0;
    while done < |names|
      invariant 0 <= done <= |names| && Reached(b, ops, done, store.Contents())
      invariant AcceptedUpTo(names, values, done)
    {
      ReachedNext(b, ops, done, store.Contents());
      var ok := PutStep(store, names[done], values[done]);
      if !ok {
        RefusedSomewhere(names, values, done);
        return;
      }
      AcceptedNext(names, values, done);
      done := done + 1;
    }
  }

  /** All puts, then one save. A put that is refused ends it there: nothing is saved, and `done` values
      are already in the store's memory. */
  method StoreValues(store: Store, names: seq<Text>, values: seq<Text>) returns (r: Outcome, done: nat)
    requires Valid(store.Contents()) && |names| == |values|
    modifies store
    ensures Valid(store.Contents()) && done <= |names|
    ensures Reached(old(store.Contents()), Puts(names, values), done, store.Contents())
    ensures r.Saved? <==> AllAccepted(names, values)
    ensures r.Saved? ==> done == |names| && r.text == Join(store.lines)
    ensures r.Failed? ==> done < |names| && !PutAccepts(names[done], values[done])
  {
    done := PutAll(store, names, values);
    if done < |names| { return Failed, done; }
    var text := store.Save();
    r := Saved(text);
  }

  /** What an import takes from a variable: nothing if it is missing, blank or unfit for one line. */
  function ImportOne(found: Option<Text>): Option<Text> {
    if found.None? then None
    else match CallerValue(found.value)
      case Some(Good(v)) => Some(v)
      case _ => None
  }

  /** Every name yields a value, and the values in order. */
  predicate AllGiven(names: seq<Text>, pick: Text -> Option<Text>) {
    forall i :: 0 <= i < |names| ==> pick(names[i]).Some?
  }

  function Given(names: seq<Text>, pick: Text -> Option<Text>): (values: seq<Text>)
    requires AllGiven(names, pick)
    ensures |values| == |names|
  {
    seq(|names|, i requires 0 <= i < |names| => pick(names[i]).value)
  }

  method Collect(names: seq<Text>, pick: Text -> Option<Text>) returns (ok: bool, values: seq<Text>)
    ensures ok <==> AllGiven(names, pick)
    ensures ok ==> values == Given(names, pick)
  {
    values := [];
    for i := 0 to |names|
      invariant |values| == i
      invariant forall j :: 0 <= j < i ==> pick(names[j]) == Some(values[j])
    {
      var v := pick(names[i]);
      if v.None? { return false, []; }
      values := values + [v.value];
    }
    ok := true;
  }

  function Importer(read: Text -> Option<Text>): Text -> Option<Text> { n => ImportOne(read(n)) }

  lemma {:induction false} ImportedValue(found: Option<Text>)
    requires ImportOne(found).Some?
    ensures found.Some? && ImportOne(found).value == Strip(found.value) && !Blank(ImportOne(found).value)
    ensures forall name :: IsName(name) ==> PutAccepts(name, ImportOne(found).value)
  {
    StripIs(found.value);
    var v := Strip(found.value);
    assert CheckValue(v).Good? ==> CheckValue(v) == Good(v);
  }

  lemma {:induction false} ImportedSound(names: seq<Text>, read: Text -> Option<Text>)
    requires AllGiven(names, Importer(read)) && forall i :: 0 <= i < |names| ==> IsName(names[i])
    ensures forall i :: 0 <= i < |names| ==>
      Sound(Puts(names, Given(names, Importer(read)))[i]) && PutAccepts(names[i], Given(names, Importer(read))[i])
  {
    forall i | 0 <= i < |names|
      ensures Sound(Puts(names, Given(names, Importer(read)))[i]) && PutAccepts(names[i], Given(names, Importer(read))[i])
    {
      ImportedValue(read(names[i]));
    }
  }

  /** All or none: a variable that is missing, blank or unfit leaves the store alone; otherwise the saved file loads again. */
  method Import(store: Store, names: seq<Text>, read: Text -> Option<Text>) returns (r: Outcome)
    requires Valid(store.Contents()) && HasValues(store.lines)
    requires forall i :: 0 <= i < |names| ==> IsName(names[i])
    modifies store
    ensures r.Saved? <==> AllGiven(names, Importer(read))
    ensures r.Failed? ==> store.Contents() == old(store.Contents())
    ensures r.Saved? ==>
      && Valid(old(store.Contents()))
      && store.Contents() == Steps(old(store.Contents()), Puts(names, Given(names, Importer(read))))
      && Load(Decoded(r.text)) == Ok(store.Contents())
  {
    ghost var b := store.Contents();
    var ok, values := Collect(names, Importer(read));
    if !ok { return Failed; }
    ImportedSound(names, read);
    var done;
    r, done := StoreValues(store, names, values);
    assert Puts(names, values)[..done] == Puts(names, values);
    StepsHaveValues(b, Puts(names, values));
    SaveThenLoad(store.Contents());
  }
}
