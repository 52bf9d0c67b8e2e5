/** The secret store refines an ordered map, and leaves every other line as it was. */
module SecretMap {
  import opened Common
  import opened SecretStore

  datatype Entry = Entry(name: Text, value: Text)

  /** What a line holds for a reader of the file. */
  function Cell(line: Text): Option<Entry> { if Skipped(line) then None else Some(Entry(NameOf(line), ValueOf(line))) }

  function Cells(lines: seq<Text>): (r: seq<Option<Entry>>)
    ensures |r| == |lines|
  {
    seq(|lines|, i requires 0 <= i < |lines| => Cell(lines[i]))
  }

  function Present(cells: seq<Option<Entry>>): seq<Entry> {
    if cells == [] then [] else PresentOne(cells[0]) + Present(cells[1..])
  }

  function PresentOne(cell: Option<Entry>): seq<Entry> { if cell.None? then [] else [cell.value] }

  /** The ordered map a file stands for, read off its lines alone. */
  function Entries(lines: seq<Text>): seq<Entry> { Present(Cells(lines)) }

  // ---------------------------------------------------------------- an ordered map

  function Lookup(es: seq<Entry>, name: Text): Option<Text> {
    if es == [] then None else if es[0].name == name then Some(es[0].value) else Lookup(es[1..], name)
  }

  /** A known name keeps its place; a new one goes last. */
  function Set(es: seq<Entry>, name: Text, value: Text): seq<Entry> {
    if es == [] then [Entry(name, value)]
    else if es[0].name == name then [Entry(name, value)] + es[1..]
    else [es[0]] + Set(es[1..], name, value)
  }

  function Remove(es: seq<Entry>, name: Text): seq<Entry> {
    if es == [] then []
    else if es[0].name == name then Remove(es[1..], name)
    else [es[0]] + Remove(es[1..], name)
  }

  predicate Without(es: seq<Entry>, name: Text) { forall e :: e in es ==> e.name != name }

  lemma {:induction false} NotThere(es: seq<Entry>, name: Text, value: Text)
    requires Without(es, name)
    ensures Lookup(es, name) == None && Remove(es, name) == es
    ensures Set(es, name, value) == es + [Entry(name, value)]
  {
    if es != [] {
      assert es[0] in es;
      NotThere(es[1..], name, value);
      assert es == [es[0]] + es[1..];
    }
  }

  lemma {:induction false} There(pre: seq<Entry>, e: Entry, post: seq<Entry>, value: Text)
    requires Without(pre, e.name) && Without(post, e.name)
    ensures Lookup(pre + ([e] + post), e.name) == Some(e.value)
    ensures Set(pre + ([e] + post), e.name, value) == pre + ([Entry(e.name, value)] + post)
    ensures Remove(pre + ([e] + post), e.name) == pre + post
    decreases |pre|
  {
    var all := pre + ([e] + post);
    if pre == [] {
      assert all == [e] + post && all[1..] == post;
      NotThere(post, e.name, value);
      assert pre + post == post;
    } else {
      assert pre[0] in pre;
      assert all[0] == pre[0] && all[1..] == pre[1..] + ([e] + post);
      There(pre[1..], e, post, value);
      assert pre == [pre[0]] + pre[1..];
    }
  }

  // ---------------------------------------------------------------- reading entries off lines

  lemma {:induction false} PresentAppend(a: seq<Option<Entry>>, b: seq<Option<Entry>>)
    ensures Present(a + b) == Present(a) + Present(b)
    decreases |a|
  {
    if a == [] {
      assert a + b == b;
    } else {
      assert (a + b)[0] == a[0] && (a + b)[1..] == a[1..] + b;
      PresentAppend(a[1..], b);
      Regroup(PresentOne(a[0]), Present(a[1..]), Present(b));
    }
  }

  lemma {:induction false} PresentAre(cells: seq<Option<Entry>>, name: Text)
    requires forall i :: 0 <= i < |cells| && cells[i].Some? ==> cells[i].value.name != name
    ensures Without(Present(cells), name)
  {
    if cells != [] { PresentAre(cells[1..], name); }
  }

  lemma {:induction false} PresentAround(cells: seq<Option<Entry>>, i: nat, cell: Option<Entry>)
    requires i < |cells|
    ensures Present(cells) == Present(cells[..i]) + (PresentOne(cells[i]) + Present(cells[i + 1..]))
    ensures Present(cells[i := cell]) == Present(cells[..i]) + (PresentOne(cell) + Present(cells[i + 1..]))
    ensures Present(cells[..i] + cells[i + 1..]) == Present(cells[..i]) + Present(cells[i + 1..])
  {
    var pre, post := cells[..i], cells[i + 1..];
    assert cells == pre + ([cells[i]] + post) && cells[i := cell] == pre + ([cell] + post);
    PresentAppend(pre, [cells[i]] + post);
    PresentAppend(pre, [cell] + post);
    PresentAppend(pre, post);
    assert ([cells[i]] + post)[1..] == post && ([cell] + post)[1..] == post;
  }

  /** The index lists the names of the entries in file order. */
  lemma {:induction false} NamesFollowLines(heads: seq<Option<Text>>, cells: seq<Option<Entry>>, k: nat)
    requires |heads| == |cells|
    requires forall i :: 0 <= i < |heads| ==>
      heads[i] == if cells[i].None? then Option<Text>.None else Some(cells[i].value.name)
    ensures |Slots(heads, k)| == |Present(cells)|
    ensures forall i :: 0 <= i < |Present(cells)| ==> Slots(heads, k)[i].name == Present(cells)[i].name
    decreases |heads|
  {
    if heads != [] { NamesFollowLines(heads[1..], cells[1..], k + 1); }
  }

  lemma {:induction false} CellsAround(lines: seq<Text>, i: nat, name: Text)
    requires Around(Heads(lines), name, i)
    ensures Cells(lines)[i] == Some(Entry(name, ValueOf(lines[i])))
    ensures Without(Present(Cells(lines)[..i]), name) && Without(Present(Cells(lines)[i + 1..]), name)
  {
    var cells, heads := Cells(lines), Heads(lines);
    forall j | 0 <= j < |lines| && j != i && cells[j].Some? ensures cells[j].value.name != name {
      assert heads[j] != Some(name);
    }
    PresentAre(cells[..i], name);
    PresentAre(cells[i + 1..], name);
  }

  lemma {:induction false} CellsLack(lines: seq<Text>, name: Text)
    requires Lacks(Heads(lines), name)
    ensures Without(Present(Cells(lines)), name)
  {
    var cells, heads := Cells(lines), Heads(lines);
    forall j | 0 <= j < |lines| && cells[j].Some? ensures cells[j].value.name != name {
      assert heads[j] != Some(name);
    }
    PresentAre(cells, name);
  }

  lemma {:induction false} CellsUpdate(lines: seq<Text>, i: nat, line: Text)
    requires i < |lines|
    ensures Cells(lines[i := line]) == Cells(lines)[i := Cell(line)]
    ensures Cells(lines[..i] + lines[i + 1..]) == Cells(lines)[..i] + Cells(lines)[i + 1..]
  {
  }

  lemma {:induction false} CellsAppend(lines: seq<Text>, line: Text)
    ensures Cells(lines + [line]) == Cells(lines) + [Cell(line)]
  {
  }

  // ---------------------------------------------------------------- refinement

  /** Every operation does to the entries of the file what it would do to an ordered map. */
  lemma {:induction false} RefinesKnown(b: Book, name: Text, value: Text)
    requires Indexed(b) && IsName(name) && Find(b.index, name).Some?
    ensures GetFrom(b, name) == Lookup(Entries(b.lines), name)
    ensures GetFrom(b, name).Some?
    ensures Entries(PutInto(b, name, value).lines) == Set(Entries(b.lines), name, value)
    ensures Find(b.index, name).value < |b.lines|
    ensures Entries(Delete(b, Find(b.index, name).value).lines) == Remove(Entries(b.lines), name)
  {
    var i, line, cells := Find(b.index, name).value, Line(name, value), Cells(b.lines);
    Found(Heads(b.lines), name);
    CellsAround(b.lines, i, name);
    assert Cell(line) == Some(Entry(name, value)) by { LineReads(name, value); }
    CellsUpdate(b.lines, i, line);
    PresentAround(cells, i, Cell(line));
    There(Present(cells[..i]), cells[i].value, Present(cells[i + 1..]), value);
  }

  lemma {:induction false} RefinesNew(b: Book, name: Text, value: Text)
    requires Indexed(b) && IsName(name) && Find(b.index, name).None?
    ensures GetFrom(b, name) == None && Lookup(Entries(b.lines), name) == None
    ensures Entries(PutInto(b, name, value).lines) == Set(Entries(b.lines), name, value)
    ensures Remove(Entries(b.lines), name) == Entries(b.lines)
  {
    var line, cells := Line(name, value), Cells(b.lines);
    Missing(Heads(b.lines), name);
    CellsLack(b.lines, name);
    assert Cell(line) == Some(Entry(name, value)) by { LineReads(name, value); }
    CellsAppend(b.lines, line);
    PresentAppend(cells, [Cell(line)]);
    assert Present([Cell(line)]) == [Entry(name, value)] by {
      assert [Cell(line)][1..] == [] && Present([]) == [];
    }
    NotThere(Entries(b.lines), name, value);
  }

  /** The names come in the order of their lines, each once, exactly the names of the entries. */
  lemma {:induction false} NamesAreOrdered(b: Book)
    requires Indexed(b)
    ensures Ascending(b.index) && NamesDiffer(b.index)
    ensures |SlotNames(b.index)| == |Entries(b.lines)|
    ensures forall i :: 0 <= i < |b.index| ==> SlotNames(b.index)[i] == Entries(b.lines)[i].name
  {
    SlotsAre(Heads(b.lines), 0);
    NamesFollowLines(Heads(b.lines), Cells(b.lines), 0);
  }

  // ---------------------------------------------------------------- lines nobody asked to change

  predicate Spared(line: Text, names: set<Text>) { Head(line).None? || Head(line).value !in names }

  function Filter<T>(s: seq<T>, keep: T -> bool): seq<T> {
    if s == [] then [] else (if keep(s[0]) then [s[0]] else []) + Filter(s[1..], keep)
  }

  lemma {:induction false} FilterAppend<T>(a: seq<T>, b: seq<T>, keep: T -> bool)
    ensures Filter(a + b, keep) == Filter(a, keep) + Filter(b, keep)
    decreases |a|
  {
    if a == [] {
      assert a + b == b;
    } else {
      assert (a + b)[0] == a[0] && (a + b)[1..] == a[1..] + b;
      FilterAppend(a[1..], b, keep);
      Regroup(if keep(a[0]) then [a[0]] else [], Filter(a[1..], keep), Filter(b, keep));
    }
  }

  lemma {:induction false} FilterAround<T>(pre: seq<T>, x: T, post: seq<T>, keep: T -> bool)
    requires !keep(x)
    ensures Filter(pre + ([x] + post), keep) == Filter(pre + post, keep)
  {
    FilterAppend(pre, [x] + post, keep);
    assert ([x] + post)[1..] == post;
    assert Filter([x] + post, keep) == Filter(post, keep);
    FilterAppend(pre, post, keep);
  }

  lemma {:induction false} FilterIs<T>(s: seq<T>, keep: T -> bool)
    ensures forall x :: x in Filter(s, keep) <==> x in s && keep(x)
  {
    if s != [] {
      FilterIs(s[1..], keep);
      assert s == [s[0]] + s[1..];
    }
  }

  /** The lines that are not entries under one of `names`, in order. */
  function Others(lines: seq<Text>, names: set<Text>): seq<Text> { Filter(lines, line => Spared(line, names)) }

  lemma {:induction false} OthersAround(pre: seq<Text>, line: Text, post: seq<Text>, names: set<Text>)
    requires !Spared(line, names)
    ensures Others(pre + ([line] + post), names) == Others(pre + post, names)
  {
    FilterAround(pre, line, post, l => Spared(l, names));
  }

  lemma {:induction false} OthersKept(lines: seq<Text>, i: nat, line: Text, names: set<Text>)
    requires i < |lines| && !Spared(lines[i], names) && !Spared(line, names)
    ensures Others(lines[i := line], names) == Others(lines, names)
    ensures Others(lines[..i] + lines[i + 1..], names) == Others(lines, names)
  {
    var pre, post := lines[..i], lines[i + 1..];
    assert lines == pre + ([lines[i]] + post) && lines[i := line] == pre + ([line] + post);
    OthersAround(pre, lines[i], post, names);
    OthersAround(pre, line, post, names);
  }

  // ---------------------------------------------------------------- any sequence of operations

  datatype Op = PutOp(name: Text, value: Text) | DeleteOp(name: Text)

  /** One call; a refused put and a delete of an unknown name raise and change nothing. */
  function Step(b: Book, op: Op): Book
    requires Valid(b)
  {
    match op
    case PutOp(name, value) => if PutAccepts(name, value) then PutInto(b, name, value) else b
    case DeleteOp(name) =>
      if Find(b.index, name).None? then b else Found(Heads(b.lines), name); Delete(b, Find(b.index, name).value)
  }

  function MapStep(es: seq<Entry>, op: Op): seq<Entry> {
    match op
    case PutOp(name, value) => if PutAccepts(name, value) then Set(es, name, value) else es
    case DeleteOp(name) => Remove(es, name)
  }

  lemma {:induction false} StepKeeps(b: Book, op: Op)
    requires Valid(b)
    ensures Valid(Step(b, op))
  {
    match op
    case PutOp(name, value) => if PutAccepts(name, value) { PutKeeps(b, name, value); }
    case DeleteOp(name) =>
      if Find(b.index, name).Some? {
        Found(Heads(b.lines), name);
        DeleteKeeps(b, Find(b.index, name).value);
      }
  }

  lemma {:induction false} DeletedNames(heads: seq<Option<Text>>, lines: seq<Text>, name: Text)
    requires AllFine(lines) && heads == Heads(lines) && !Lacks(heads, name)
    ensures IsName(name)
  {
    var i :| 0 <= i < |heads| && heads[i] == Some(name);
    assert Fine(lines[i]);
  }

  /** One operation on the store is one operation on the map. */
  lemma {:induction false} StepRefines(b: Book, op: Op)
    requires Valid(b)
    ensures Entries(Step(b, op).lines) == MapStep(Entries(b.lines), op)
  {
    match op
    case PutOp(name, value) =>
      if PutAccepts(name, value) {
        if Find(b.index, name).Some? { RefinesKnown(b, name, value); } else { RefinesNew(b, name, value); }
      }
    case DeleteOp(name) =>
      Missing(Heads(b.lines), name);
      if Find(b.index, name).Some? {
        DeletedNames(Heads(b.lines), b.lines, name);
        RefinesKnown(b, name, []);
      } else {
        CellsLack(b.lines, name);
        NotThere(Entries(b.lines), name, []);
      }
  }

  lemma {:induction false} StepSpares(b: Book, op: Op, names: set<Text>)
    requires Valid(b) && op.name in names
    ensures Others(Step(b, op).lines, names) == Others(b.lines, names)
  {
    var name := op.name;
    if op.PutOp? && PutAccepts(name, op.value) {
      var line := Line(name, op.value);
      assert Head(line) == Some(name) by { LineReads(name, op.value); }
      if Find(b.index, name).Some? {
        Found(Heads(b.lines), name);
        OthersKept(b.lines, Find(b.index, name).value, line, names);
      } else {
        OthersAround(b.lines, line, [], names);
        assert b.lines + ([line] + []) == b.lines + [line] && b.lines + [] == b.lines;
      }
    } else if op.DeleteOp? && Find(b.index, name).Some? {
      var i := Find(b.index, name).value;
      Found(Heads(b.lines), name);
      OthersKept(b.lines, i, b.lines[i], names);
    }
  }

  function Steps(b: Book, ops: seq<Op>): (r: Book)
    requires Valid(b)
    ensures Valid(r)
    decreases |ops|
  {
    if ops == [] then b else
    var before := Steps(b, ops[..|ops| - 1]);
    StepKeeps(before, ops[|ops| - 1]);
    Step(before, ops[|ops| - 1])
  }

  function MapSteps(es: seq<Entry>, ops: seq<Op>): seq<Entry>
    decreases |ops|
  {
    if ops == [] then es else MapStep(MapSteps(es, ops[..|ops| - 1]), ops[|ops| - 1])
  }

  /**
   After any sequence of puts and deletes the index is the index of the lines, the file stands for
   what the same operations make of an ordered map, and every line that is not an entry under a
   name that was put or deleted keeps its text and its order.
   */
  lemma {:induction false} AnySequence(b: Book, ops: seq<Op>, names: set<Text>)
    requires Valid(b) && forall i :: 0 <= i < |ops| ==> ops[i].name in names
    ensures Valid(Steps(b, ops))
    ensures Entries(Steps(b, ops).lines) == MapSteps(Entries(b.lines), ops)
    ensures Others(Steps(b, ops).lines, names) == Others(b.lines, names)
    decreases |ops|
  {
    if ops != [] {
      var before, op := Steps(b, ops[..|ops| - 1]), ops[|ops| - 1];
      AnySequence(b, ops[..|ops| - 1], names);
      StepRefines(before, op);
      StepSpares(before, op, names);
    }
  }
}
