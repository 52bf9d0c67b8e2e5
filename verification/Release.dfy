/**
 Publication of one release on two hosts. A run reads both hosts, refuses or makes a list of remote
 changes, and may be stopped before any of them; a later run starts over from what it finds.
 */
module Release {
  import opened Common
  import opened Bytes

  datatype File = File(name: Text, bytes: Text)
  datatype Asset = Asset(id: nat, file: File)
  datatype Host = Absent | Draft(assets: seq<Asset>) | Live(assets: seq<Asset>)
  datatype Hosts = Hosts(codeberg: Host, github: Host, nextId: nat)

  /** "SHA256SUMS" */
  const SUMS: Text := [83, 72, 65, 50, 53, 54, 83, 85, 77, 83]

  function Names(files: seq<File>): set<Text> { set f | f in files :: f.name }

  function View(assets: seq<Asset>): (files: seq<File>)
    ensures |files| == |assets|
  {
    seq(|assets|, i requires 0 <= i < |assets| => assets[i].file)
  }

  predicate Distinct(files: seq<File>) {
    forall i, j :: 0 <= i < j < |files| ==> files[i].name != files[j].name
  }

  /** What the collection step hands over: distinct names, the checksum file last. */
  predicate Artifacts(files: seq<File>) {
    files != [] && files[|files| - 1].name == SUMS && Distinct(files)
  }

  function Sums(files: seq<File>): Text
    requires files != []
  {
    files[|files| - 1].bytes
  }

  /** The published file under a name, as a download by name gives it. */
  function Download(files: seq<File>, name: Text): Option<Text> {
    if files == [] then None
    else if files[0].name == name then Some(files[0].bytes)
    else Download(files[1..], name)
  }

  // ---------------------------------------------------------------- remote changes

  datatype Op =
    | CreateCodeberg
    | CreateGithub
    | DeleteCodeberg(id: nat)
    | UploadCodeberg(file: File)
    | DeleteGithub(name: Text)
    | UploadGithub(file: File)
    | PublishCodeberg
    | PublishGithub

  predicate OnCodeberg(op: Op) {
    op.CreateCodeberg? || op.DeleteCodeberg? || op.UploadCodeberg? || op.PublishCodeberg?
  }

  function WithoutId(assets: seq<Asset>, id: nat): seq<Asset> {
    if assets == [] then []
    else if assets[0].id == id then WithoutId(assets[1..], id)
    else [assets[0]] + WithoutId(assets[1..], id)
  }

  function WithoutName(assets: seq<Asset>, name: Text): seq<Asset> {
    if assets == [] then []
    else if assets[0].file.name == name then WithoutName(assets[1..], name)
    else [assets[0]] + WithoutName(assets[1..], name)
  }

  function Replace(h: Host, assets: seq<Asset>): Host {
    match h case Absent => Absent case Draft(_) => Draft(assets) case Live(_) => Live(assets)
  }

  function AssetsOf(h: Host): seq<Asset> { if h.Absent? then [] else h.assets }

  /** One remote call. The hosts themselves let a live release be changed. */
  function Perform(w: Hosts, op: Op): Hosts {
    match op
    case CreateCodeberg => if w.codeberg.Absent? then w.(codeberg := Draft([])) else w
    case CreateGithub => if w.github.Absent? then w.(github := Draft([])) else w
    case DeleteCodeberg(id) => w.(codeberg := Replace(w.codeberg, WithoutId(AssetsOf(w.codeberg), id)))
    case UploadCodeberg(f) =>
      w.(codeberg := Replace(w.codeberg, AssetsOf(w.codeberg) + [Asset(w.nextId, f)]), nextId := w.nextId + 1)
    case DeleteGithub(name) => w.(github := Replace(w.github, WithoutName(AssetsOf(w.github), name)))
    case UploadGithub(f) =>
      w.(github := Replace(w.github, AssetsOf(w.github) + [Asset(w.nextId, f)]), nextId := w.nextId + 1)
    case PublishCodeberg => if w.codeberg.Absent? then w else w.(codeberg := Live(w.codeberg.assets))
    case PublishGithub => if w.github.Absent? then w else w.(github := Live(w.github.assets))
  }

  function Exec(w: Hosts, ops: seq<Op>): Hosts
    decreases |ops|
  {
    if ops == [] then w else Exec(Perform(w, ops[0]), ops[1..])
  }

  // ---------------------------------------------------------------- one run

  predicate Agrees(h: Host, files: seq<File>)
    requires files != []
  {
    h.Live? ==>
      && Names(View(h.assets)) == Names(files)
      && Download(View(h.assets), SUMS) == Some(Sums(files))
  }

  predicate NoExtras(h: Host, files: seq<File>) {
    h.Draft? ==> Names(View(h.assets)) <= Names(files)
  }

  /** The guards of a run, on what it reads before its first change. */
  predicate Accepts(w: Hosts, files: seq<File>)
    requires files != []
  {
    && Agrees(w.codeberg, files) && Agrees(w.github, files)
    && NoExtras(w.codeberg, files) && NoExtras(w.github, files)
  }

  function Creates(w: Hosts): seq<Op> {
    (if w.codeberg.Absent? then [CreateCodeberg] else []) + (if w.github.Absent? then [CreateGithub] else [])
  }

  function Deletes(existing: seq<Asset>, name: Text): seq<Op> {
    if existing == [] then []
    else (if existing[0].file.name == name then [DeleteCodeberg(existing[0].id)] else []) + Deletes(existing[1..], name)
  }

  function FillCodeberg(existing: seq<Asset>, files: seq<File>): seq<Op> {
    if files == [] then []
    else Deletes(existing, files[0].name) + ([UploadCodeberg(files[0])] + FillCodeberg(existing, files[1..]))
  }

  function FillGithub(files: seq<File>): seq<Op> {
    if files == [] then []
    else [DeleteGithub(files[0].name), UploadGithub(files[0])] + FillGithub(files[1..])
  }

  function Fills(w: Hosts, files: seq<File>): seq<Op> {
    (if w.codeberg.Live? then [] else FillCodeberg(AssetsOf(w.codeberg), files))
    + (if w.github.Live? then [] else FillGithub(files))
  }

  function GoLive(w: Hosts): seq<Op> {
    (if w.codeberg.Live? then [] else [PublishCodeberg]) + (if w.github.Live? then [] else [PublishGithub])
  }

  /** The remote changes an uninterrupted run makes. */
  function Plan(w: Hosts, files: seq<File>): seq<Op>
    requires files != []
  {
    if !Agrees(w.codeberg, files) || !Agrees(w.github, files) then []
    else if !Accepts(w, files) then Creates(w)
    else Creates(w) + (Fills(w, files) + GoLive(w))
  }

  function UpTo<T>(s: seq<T>, n: nat): seq<T> { if n < |s| then s[..n] else s }

  /** A run that is stopped after `n` remote changes, if it makes that many. */
  function Run(w: Hosts, files: seq<File>, n: nat): Hosts
    requires files != []
  {
    Exec(w, UpTo(Plan(w, files), n))
  }

  // ---------------------------------------------------------------- list lemmas

  lemma {:induction false} ExecAppend(w: Hosts, a: seq<Op>, b: seq<Op>)
    ensures Exec(w, a + b) == Exec(Exec(w, a), b)
    decreases |a|
  {
    if a == [] {
      assert a + b == b;
    } else {
      assert (a + b)[0] == a[0] && (a + b)[1..] == a[1..] + b;
      ExecAppend(Perform(w, a[0]), a[1..], b);
    }
  }

  lemma {:induction false} DownloadFinds(files: seq<File>, i: nat)
    requires i < |files| && Distinct(files)
    ensures Download(files, files[i].name) == Some(files[i].bytes)
  {
    if i > 0 {
      TailDistinct(files);
      DownloadFinds(files[1..], i - 1);
      assert files[0].name != files[i].name;
    }
  }

  lemma {:induction false} WithoutNameIs(assets: seq<Asset>, name: Text)
    ensures forall x :: x in WithoutName(assets, name) <==> x in assets && x.file.name != name
  {
    if assets != [] { WithoutNameIs(assets[1..], name); }
  }

  lemma {:induction false} WithoutIdIs(assets: seq<Asset>, id: nat)
    ensures forall x :: x in WithoutId(assets, id) <==> x in assets && x.id != id
  {
    if assets != [] { WithoutIdIs(assets[1..], id); }
  }

  // ---------------------------------------------------------------- live releases are left alone

  lemma {:induction false} DeletesAre(existing: seq<Asset>, name: Text)
    ensures forall op :: op in Deletes(existing, name) ==> op.DeleteCodeberg?
  {
    if existing != [] { DeletesAre(existing[1..], name); }
  }

  lemma {:induction false} FillCodebergIs(existing: seq<Asset>, files: seq<File>)
    ensures forall op :: op in FillCodeberg(existing, files) ==> op.DeleteCodeberg? || op.UploadCodeberg?
    decreases |files|
  {
    if files != [] {
      DeletesAre(existing, files[0].name);
      FillCodebergIs(existing, files[1..]);
    }
  }

  lemma {:induction false} FillGithubIs(files: seq<File>)
    ensures forall op :: op in FillGithub(files) ==> op.DeleteGithub? || op.UploadGithub?
  {
    if files != [] { FillGithubIs(files[1..]); }
  }

  lemma {:induction false} PlanSparesLive(w: Hosts, files: seq<File>)
    requires files != []
    ensures forall op :: op in Plan(w, files) ==> if OnCodeberg(op) then !w.codeberg.Live? else !w.github.Live?
  {
    FillCodebergIs(AssetsOf(w.codeberg), files);
    FillGithubIs(files);
  }

  lemma {:induction false} ExecSpares(w: Hosts, ops: seq<Op>)
    ensures (forall op :: op in ops ==> !OnCodeberg(op)) ==> Exec(w, ops).codeberg == w.codeberg
    ensures (forall op :: op in ops ==> OnCodeberg(op)) ==> Exec(w, ops).github == w.github
    decreases |ops|
  {
    if ops != [] {
      assert forall op :: op in ops[1..] ==> op in ops;
      assert ops[0] in ops;
      ExecSpares(Perform(w, ops[0]), ops[1..]);
    }
  }

  /** Whatever the hosts hold and whatever is being published, a live release keeps its assets. */
  lemma {:induction false} LiveNeverChanges(w: Hosts, files: seq<File>, n: nat)
    requires files != []
    ensures w.codeberg.Live? ==> Run(w, files, n).codeberg == w.codeberg
    ensures w.github.Live? ==> Run(w, files, n).github == w.github
  {
    var ops := UpTo(Plan(w, files), n);
    PlanSparesLive(w, files);
    assert forall op :: op in ops ==> op in Plan(w, files);
    ExecSpares(w, ops);
  }

  /** No file of the release has the asset's name, and no asset the file's. */
  predicate Unlisted(x: Asset, files: seq<File>) { forall f :: f in files ==> f.name != x.file.name }

  predicate NotUp(f: File, assets: seq<Asset>) { forall x :: x in assets ==> x.file.name != f.name }

  /** A live host shows other names than the release has, or another checksum file. */
  predicate Clash(h: Host, files: seq<File>)
    requires files != []
  {
    h.Live? &&
    ((exists x :: x in h.assets && Unlisted(x, files)) || (exists f :: f in files && NotUp(f, h.assets))
     || Download(View(h.assets), SUMS) != Some(files[|files| - 1].bytes))
  }

  /** A draft holds an asset that is not of the release. */
  predicate Foreign(h: Host, files: seq<File>) { h.Draft? && exists x :: x in h.assets && Unlisted(x, files) }

  lemma {:induction false} NamesOf(assets: seq<Asset>, name: Text)
    ensures name in Names(View(assets)) <==> exists x :: x in assets && x.file.name == name
  {
    var files := View(assets);
    if name in Names(files) {
      var i :| 0 <= i < |files| && files[i].name == name;
      assert assets[i] in assets;
    }
    forall x | x in assets && x.file.name == name ensures name in Names(files) {
      var i :| 0 <= i < |assets| && assets[i] == x;
      assert files[i] in files;
    }
  }

  lemma {:induction false} NamesWithin(assets: seq<Asset>, files: seq<File>)
    ensures Names(View(assets)) <= Names(files) <==> forall x :: x in assets ==> !Unlisted(x, files)
    ensures Names(files) <= Names(View(assets)) <==> forall f :: f in files ==> !NotUp(f, assets)
  {
    forall x | x in assets ensures x.file.name in Names(View(assets)) { NamesOf(assets, x.file.name); }
    forall x | x in assets ensures !Unlisted(x, files) <==> x.file.name in Names(files) { }
    forall f | f in files ensures !NotUp(f, assets) <==> f.name in Names(View(assets)) { NamesOf(assets, f.name); }
    forall name | name in Names(View(assets)) ensures exists x :: x in assets && x.file.name == name { NamesOf(assets, name); }
  }

  lemma {:induction false} GuardsMean(h: Host, files: seq<File>)
    requires files != []
    ensures Agrees(h, files) <==> !Clash(h, files)
    ensures NoExtras(h, files) <==> !Foreign(h, files)
  {
    NamesWithin(AssetsOf(h), files);
  }

  /** A run that clashes with a live host changes nothing. One that finds a foreign asset in a draft creates what is
      missing and changes nothing else. Any other run has something to change unless both hosts are live. */
  lemma {:induction false} DisagreementStops(w: Hosts, files: seq<File>, n: nat)
    requires files != []
    ensures SUMS == Ascii("SHA256SUMS")
    ensures
      var clash, foreign := Clash(w.codeberg, files) || Clash(w.github, files), Foreign(w.codeberg, files) || Foreign(w.github, files);
      && (clash ==> Run(w, files, n) == w)
      && (foreign && !clash ==>
            var r := Run(w, files, n);
            && (r.codeberg == w.codeberg || (w.codeberg.Absent? && r.codeberg == Draft([])))
            && (r.github == w.github || (w.github.Absent? && r.github == Draft([]))))
      && (Plan(w, files) == [] <==>
            clash || (w.codeberg.Live? && w.github.Live?) || (foreign && !w.codeberg.Absent? && !w.github.Absent?))
  {
    GuardsMean(w.codeberg, files);
    GuardsMean(w.github, files);
    if Accepts(w, files) {
      PlanLength(w, files);
    } else if Agrees(w.codeberg, files) && Agrees(w.github, files) {
      OnlyCreates(w, n);
    }
  }

  lemma {:induction false} PlanLength(w: Hosts, files: seq<File>)
    requires files != [] && Accepts(w, files)
    ensures Plan(w, files) == [] <==> w.codeberg.Live? && w.github.Live?
  {
    assert Plan(w, files) == Creates(w) + (Fills(w, files) + GoLive(w));
    if w.codeberg.Live? && w.github.Live? {
      assert Creates(w) == [] && Fills(w, files) == [] && GoLive(w) == [];
    } else {
      assert GoLive(w) != [];
      assert |Plan(w, files)| >= |GoLive(w)|;
    }
  }

  lemma {:induction false} OnlyCreates(w: Hosts, n: nat)
    ensures
      var r := Exec(w, UpTo(Creates(w), n));
      && (r.codeberg == w.codeberg || (w.codeberg.Absent? && r.codeberg == Draft([])))
      && (r.github == w.github || (w.github.Absent? && r.github == Draft([])))
  {
    var ops := UpTo(Creates(w), n);
    if |ops| >= 1 {
      var w1 := Perform(w, ops[0]);
      assert Exec(w, ops) == Exec(w1, ops[1..]);
      if |ops| == 2 { assert ops[1..] == [ops[1]] && Exec(w1, [ops[1]]) == Perform(w1, ops[1]); }
    }
  }

  // ---------------------------------------------------------------- filling a draft

  predicate Unique(assets: seq<Asset>) { forall i, j :: 0 <= i < j < |assets| ==> assets[i].id != assets[j].id }

  predicate IdsUnique(w: Hosts) {
    && Unique(AssetsOf(w.codeberg))
    && (forall x :: x in AssetsOf(w.codeberg) ==> x.id < w.nextId)
  }

  lemma {:induction false} WithoutIdUnique(assets: seq<Asset>, id: nat)
    requires Unique(assets)
    ensures Unique(WithoutId(assets, id))
  {
    if assets != [] {
      var rest := assets[1..];
      assert Unique(rest) by {
        forall i, j | 0 <= i < j < |rest| ensures rest[i].id != rest[j].id {
          assert rest[i] == assets[i + 1] && rest[j] == assets[j + 1];
        }
      }
      WithoutIdUnique(rest, id);
      WithoutIdIs(rest, id);
      var t := WithoutId(rest, id);
      forall k | 0 <= k < |t| ensures t[k].id != assets[0].id {
        assert t[k] in rest;
        var m :| 0 <= m < |rest| && rest[m] == t[k];
        assert assets[m + 1].id != assets[0].id;
      }
    }
  }

  lemma {:induction false} PerformKeepsIds(w: Hosts, op: Op)
    requires IdsUnique(w)
    ensures IdsUnique(Perform(w, op))
  {
    match op
    case DeleteCodeberg(id) =>
      WithoutIdUnique(AssetsOf(w.codeberg), id);
      WithoutIdIs(AssetsOf(w.codeberg), id);
    case UploadCodeberg(f) =>
      var a := AssetsOf(w.codeberg);
      assert forall i :: 0 <= i < |a| ==> a[i] in a;
    case _ =>
  }

  lemma {:induction false} ExecKeepsIds(w: Hosts, ops: seq<Op>)
    requires IdsUnique(w)
    ensures IdsUnique(Exec(w, ops))
    decreases |ops|
  {
    if ops != [] {
      PerformKeepsIds(w, ops[0]);
      ExecKeepsIds(Perform(w, ops[0]), ops[1..]);
    }
  }

  function Put(assets: seq<Asset>, id: nat, f: File): seq<Asset> {
    WithoutName(assets, f.name) + [Asset(id, f)]
  }

  /** A draft after every file replaced its namesakes, one after the other. */
  function PutAll(assets: seq<Asset>, id: nat, files: seq<File>): seq<Asset>
    decreases |files|
  {
    if files == [] then assets else PutAll(Put(assets, id, files[0]), id + 1, files[1..])
  }

  /** The ids listed under `name` are exactly those of the assets that bear it. */
  predicate ListedRight(assets: seq<Asset>, existing: seq<Asset>, name: Text) {
    && (forall x :: x in assets && x.file.name == name ==> x in existing)
    && (forall x, y :: x in assets && y in existing && y.file.name == name && x.id == y.id ==> x == y)
  }

  lemma {:induction false} DeletesFrom(w: Hosts, existing: seq<Asset>, name: Text)
    requires w.codeberg.Draft?
    ensures var r := Exec(w, Deletes(existing, name));
      && r.codeberg.Draft? && r.github == w.github && r.nextId == w.nextId
      && r.codeberg.assets == Survivors(w.codeberg.assets, existing, name)
    decreases |existing|
  {
    if existing != [] {
      var head := if existing[0].file.name == name then [DeleteCodeberg(existing[0].id)] else [];
      ExecAppend(w, head, Deletes(existing[1..], name));
      assert Exec(w, head) == if existing[0].file.name == name then Perform(w, head[0]) else w;
      DeletesFrom(Exec(w, head), existing[1..], name);
    }
  }

  function Survivors(assets: seq<Asset>, existing: seq<Asset>, name: Text): seq<Asset>
    decreases |existing|
  {
    if existing == [] then assets
    else Survivors(if existing[0].file.name == name then WithoutId(assets, existing[0].id) else assets, existing[1..], name)
  }

  /** Deleting by listed id is deleting by name, when the listing is right. */
  lemma {:induction false} SurvivorsAre(assets: seq<Asset>, existing: seq<Asset>, name: Text)
    requires ListedRight(assets, existing, name)
    ensures Survivors(assets, existing, name) == WithoutName(assets, name)
    decreases |existing|
  {
    if existing == [] {
      KeepsAll(assets, name);
    } else {
      var rest := existing[1..];
      assert existing == [existing[0]] + rest;
      if existing[0].file.name == name {
        var fewer := WithoutId(assets, existing[0].id);
        WithoutIdIs(assets, existing[0].id);
        assert ListedRight(fewer, rest, name);
        SurvivorsAre(fewer, rest, name);
        assert forall x :: x in assets && x.id == existing[0].id ==> x.file.name == name;
        IdThenName(assets, existing[0].id, name);
      } else {
        assert ListedRight(assets, rest, name);
        SurvivorsAre(assets, rest, name);
      }
    }
  }

  lemma {:induction false} KeepsAll(assets: seq<Asset>, name: Text)
    requires forall x :: x in assets ==> x.file.name != name
    ensures WithoutName(assets, name) == assets
  {
    if assets != [] { KeepsAll(assets[1..], name); }
  }

  lemma {:induction false} IdThenName(assets: seq<Asset>, id: nat, name: Text)
    requires forall x :: x in assets && x.id == id ==> x.file.name == name
    ensures WithoutName(WithoutId(assets, id), name) == WithoutName(assets, name)
  {
    if assets != [] {
      assert assets[0] in assets;
      IdThenName(assets[1..], id, name);
      if assets[0].id != id {
        var t := [assets[0]] + WithoutId(assets[1..], id);
        assert t[0] == assets[0] && t[1..] == WithoutId(assets[1..], id);
      }
    }
  }

  /** The listing made before the first upload stays right for every file still to come. */
  predicate Listing(w: Hosts, existing: seq<Asset>, files: seq<File>) {
    && w.codeberg.Draft? && IdsUnique(w)
    && (forall y :: y in existing ==> y.id < w.nextId)
    && forall f :: f in files ==> ListedRight(w.codeberg.assets, existing, f.name)
  }

  lemma {:induction false} ListingHolds(w: Hosts, files: seq<File>)
    requires w.codeberg.Draft? && IdsUnique(w)
    ensures Listing(w, w.codeberg.assets, files)
  {
    var a := w.codeberg.assets;
    forall x, y | x in a && y in a && x.id == y.id ensures x == y {
      var i :| 0 <= i < |a| && a[i] == x;
      var j :| 0 <= j < |a| && a[j] == y;
      assert i == j;
    }
  }

  lemma {:induction false} PutListed(w: Hosts, existing: seq<Asset>, files: seq<File>)
    requires files != [] && Distinct(files) && Listing(w, existing, files)
    requires IdsUnique(Hosts(Draft(Put(w.codeberg.assets, w.nextId, files[0])), w.github, w.nextId + 1))
    ensures Listing(Hosts(Draft(Put(w.codeberg.assets, w.nextId, files[0])), w.github, w.nextId + 1), existing, files[1..])
  {
    var a, f := w.codeberg.assets, files[0];
    var put := Put(a, w.nextId, f);
    WithoutNameIs(a, f.name);
    forall g | g in files[1..] ensures ListedRight(put, existing, g.name) {
      var i :| 1 <= i < |files| && files[i] == g;
      assert files[0].name != files[i].name;
      assert ListedRight(a, existing, g.name);
      assert forall x :: x in put ==> x == Asset(w.nextId, f) || x in a;
    }
  }

  lemma {:induction false} FillOne(w: Hosts, existing: seq<Asset>, f: File)
    requires w.codeberg.Draft? && IdsUnique(w) && ListedRight(w.codeberg.assets, existing, f.name)
    ensures var r := Exec(w, Deletes(existing, f.name) + [UploadCodeberg(f)]);
      && r == Hosts(Draft(Put(w.codeberg.assets, w.nextId, f)), w.github, w.nextId + 1)
      && IdsUnique(r)
  {
    var ops := Deletes(existing, f.name);
    DeletesFrom(w, existing, f.name);
    SurvivorsAre(w.codeberg.assets, existing, f.name);
    ExecAppend(w, ops, [UploadCodeberg(f)]);
    var mid := Exec(w, ops);
    assert Exec(mid, [UploadCodeberg(f)]) == Perform(mid, UploadCodeberg(f));
    ExecKeepsIds(w, ops + [UploadCodeberg(f)]);
  }

  lemma {:induction false} FillCodebergPuts(w: Hosts, existing: seq<Asset>, files: seq<File>)
    requires Distinct(files) && Listing(w, existing, files)
    ensures Exec(w, FillCodeberg(existing, files))
      == Hosts(Draft(PutAll(w.codeberg.assets, w.nextId, files)), w.github, w.nextId + |files|)
    decreases |files|
  {
    if files != [] {
      var f := files[0];
      var first := Deletes(existing, f.name) + [UploadCodeberg(f)];
      assert ListedRight(w.codeberg.assets, existing, f.name);
      FillOne(w, existing, f);
      FillCodebergStep(existing, files);
      ExecAppend(w, first, FillCodeberg(existing, files[1..]));
      PutListed(w, existing, files);
      TailDistinct(files);
      FillCodebergPuts(Exec(w, first), existing, files[1..]);
    }
  }

  lemma {:induction false} TailDistinct(files: seq<File>)
    requires files != [] && Distinct(files)
    ensures Distinct(files[1..])
  {
    var rest := files[1..];
    forall i, j | 0 <= i < j < |rest| ensures rest[i].name != rest[j].name {
      assert rest[i] == files[i + 1] && rest[j] == files[j + 1];
    }
  }

  lemma {:induction false} FillGithubPuts(w: Hosts, files: seq<File>)
    requires w.github.Draft?
    ensures Exec(w, FillGithub(files))
      == Hosts(w.codeberg, Draft(PutAll(w.github.assets, w.nextId, files)), w.nextId + |files|)
    decreases |files|
  {
    if files != [] {
      var two := [DeleteGithub(files[0].name), UploadGithub(files[0])];
      ExecAppend(w, two, FillGithub(files[1..]));
      var w1 := Perform(w, two[0]);
      assert two[1..] == [two[1]];
      assert Exec(w1, [two[1]]) == Perform(w1, two[1]);
      assert Exec(w, two) == Perform(w1, two[1]);
      FillGithubPuts(Exec(w, two), files[1..]);
    }
  }

  lemma {:induction false} WithoutNameAppend(a: seq<Asset>, b: seq<Asset>, name: Text)
    ensures WithoutName(a + b, name) == WithoutName(a, name) + WithoutName(b, name)
    decreases |a|
  {
    if a == [] {
      assert a + b == b;
    } else {
      assert (a + b)[0] == a[0] && (a + b)[1..] == a[1..] + b;
      WithoutNameAppend(a[1..], b, name);
    }
  }

  lemma {:induction false} SomeElement(a: seq<Asset>)
    ensures a == [] || exists x :: x in a
  {
    if a != [] { assert a[0] in a; }
  }

  predicate AllNamed(assets: seq<Asset>, files: seq<File>) {
    forall x :: x in assets ==> x.file.name in Names(files)
  }

  predicate NoneNamed(assets: seq<Asset>, files: seq<File>) {
    forall x :: x in assets ==> x.file.name !in Names(files)
  }

  lemma {:induction false} HeadName(files: seq<File>)
    requires files != [] && Distinct(files)
    ensures Names(files) == {files[0].name} + Names(files[1..])
    ensures files[0].name !in Names(files[1..])
  {
    var tail := files[1..];
    assert files == [files[0]] + tail;
    forall g | g in tail ensures g.name != files[0].name {
      var i :| 0 <= i < |tail| && tail[i] == g;
      assert files[i + 1] == g;
    }
  }

  lemma {:induction false} PutStep(rest: seq<Asset>, done: seq<Asset>, id: nat, files: seq<File>)
    requires files != [] && Distinct(files) && AllNamed(rest, files) && NoneNamed(done, files)
    ensures var rest', done' := WithoutName(rest, files[0].name), done + [Asset(id, files[0])];
      && Put(rest + done, id, files[0]) == rest' + done'
      && AllNamed(rest', files[1..]) && NoneNamed(done', files[1..])
  {
    var f := files[0];
    HeadName(files);
    WithoutNameIs(rest, f.name);
    KeepsAll(done, f.name);
    WithoutNameAppend(rest, done, f.name);
  }

  /** Assets still to be replaced come first; those already put stay as they are, in order. */
  lemma {:induction false} PutAllIs(rest: seq<Asset>, done: seq<Asset>, id: nat, files: seq<File>)
    requires Distinct(files) && AllNamed(rest, files) && NoneNamed(done, files)
    ensures View(PutAll(rest + done, id, files)) == View(done) + files
    decreases |files|
  {
    if files == [] {
      SomeElement(rest);
      assert rest + done == done;
    } else {
      var rest', done' := WithoutName(rest, files[0].name), done + [Asset(id, files[0])];
      PutStep(rest, done, id, files);
      TailDistinct(files);
      PutAllIs(rest', done', id + 1, files[1..]);
      assert View(done') + files[1..] == View(done) + files;
    }
  }

  lemma {:induction false} FilledDraft(assets: seq<Asset>, id: nat, files: seq<File>)
    requires Distinct(files) && Names(View(assets)) <= Names(files)
    ensures View(PutAll(assets, id, files)) == files
  {
    forall x | x in assets ensures x.file.name in Names(files) {
      var i :| 0 <= i < |assets| && assets[i] == x;
      assert View(assets)[i] in View(assets);
      assert x.file.name in Names(View(assets));
    }
    PutAllIs(assets, [], id, files);
    assert assets + [] == assets;
    assert View([]) + files == files;
  }

  // ---------------------------------------------------------------- going live

  /** A host that holds the whole release: the exact files, or for one that was live before, what a run can see of it. */
  predicate Holds(h: Host, before: Host, files: seq<File>)
    requires files != []
  {
    if before.Live? then h == before && Agrees(h, files) else !h.Absent? && View(h.assets) == files
  }

  lemma {:induction false} Created(w: Hosts)
    ensures var r := Exec(w, Creates(w));
      && r.nextId == w.nextId
      && r.codeberg == (if w.codeberg.Absent? then Draft([]) else w.codeberg)
      && r.github == (if w.github.Absent? then Draft([]) else w.github)
  {
    var a := if w.codeberg.Absent? then [CreateCodeberg] else [];
    var b := if w.github.Absent? then [CreateGithub] else [];
    ExecAppend(w, a, b);
    assert Exec(w, a) == if w.codeberg.Absent? then Perform(w, CreateCodeberg) else w;
    var m := Exec(w, a);
    assert Exec(m, b) == if w.github.Absent? then Perform(m, CreateGithub) else m;
  }

  /** When every file has been sent, both hosts hold the release and each is as live as it was. */
  lemma {:induction false} Filled(w: Hosts, files: seq<File>)
    requires files != [] && Distinct(files) && IdsUnique(w) && Accepts(w, files)
    ensures var r := Exec(w, Creates(w) + Fills(w, files));
      && Holds(r.codeberg, w.codeberg, files) && Holds(r.github, w.github, files)
      && r.codeberg.Live? == w.codeberg.Live? && r.github.Live? == w.github.Live?
  {
    var cb := if w.codeberg.Live? then [] else FillCodeberg(AssetsOf(w.codeberg), files);
    var gh := if w.github.Live? then [] else FillGithub(files);
    Created(w);
    var w1 := Exec(w, Creates(w));
    ExecAppend(w, Creates(w), cb + gh);
    ExecAppend(w1, cb, gh);
    var w2 := Exec(w1, cb);
    assert w2.github == w1.github && Holds(w2.codeberg, w.codeberg, files) && w2.codeberg.Live? == w.codeberg.Live? by {
      if !w.codeberg.Live? {
        assert AssetsOf(w.codeberg) == w1.codeberg.assets;
        ListingHolds(w1, files);
        FillCodebergPuts(w1, w1.codeberg.assets, files);
        FilledDraft(w1.codeberg.assets, w1.nextId, files);
      }
    }
    if !w.github.Live? {
      FillGithubPuts(w2, files);
      FilledDraft(w2.github.assets, w2.nextId, files);
    }
  }

  predicate Quiet(op: Op) { !op.PublishCodeberg? && !op.PublishGithub? }

  lemma {:induction false} QuietKeepsLive(w: Hosts, ops: seq<Op>)
    requires forall op :: op in ops ==> Quiet(op)
    ensures Exec(w, ops).codeberg.Live? == w.codeberg.Live?
    ensures Exec(w, ops).github.Live? == w.github.Live?
    decreases |ops|
  {
    if ops != [] {
      assert ops[0] in ops;
      QuietKeepsLive(Perform(w, ops[0]), ops[1..]);
    }
  }

  function Before(w: Hosts, files: seq<File>): seq<Op> { Creates(w) + Fills(w, files) }

  lemma {:induction false} BeforeIsQuiet(w: Hosts, files: seq<File>)
    ensures forall op :: op in Before(w, files) ==> Quiet(op)
  {
    FillCodebergIs(AssetsOf(w.codeberg), files);
    FillGithubIs(files);
  }

  /** A run that is refused, or stopped before everything is sent, puts nothing live. */
  lemma {:induction false} EarlyStop(w: Hosts, files: seq<File>, n: nat)
    requires files != []
    requires !Accepts(w, files) || n <= |Before(w, files)|
    ensures Run(w, files, n).codeberg.Live? == w.codeberg.Live?
    ensures Run(w, files, n).github.Live? == w.github.Live?
  {
    var ops := UpTo(Plan(w, files), n);
    BeforeIsQuiet(w, files);
    EarlyOps(w, files, n);
    QuietKeepsLive(w, ops);
  }

  lemma {:induction false} EarlyOps(w: Hosts, files: seq<File>, n: nat)
    requires files != []
    requires !Accepts(w, files) || n <= |Before(w, files)|
    ensures forall op :: op in UpTo(Plan(w, files), n) ==> op in Before(w, files)
  {
    if Accepts(w, files) {
      var b, g := Before(w, files), GoLive(w);
      PlanIs(w, files);
      assert UpTo(b + g, n) == b[..n];
    } else {
      assert forall op :: op in Creates(w) ==> op in Before(w, files);
    }
  }

  lemma {:induction false} GoingLive(w: Hosts, r: Hosts, files: seq<File>, k: nat)
    requires files != [] && k <= |GoLive(w)|
    requires Holds(r.codeberg, w.codeberg, files) && Holds(r.github, w.github, files)
    requires r.codeberg.Live? == w.codeberg.Live? && r.github.Live? == w.github.Live?
    ensures var t := Exec(r, GoLive(w)[..k]);
      && Holds(t.codeberg, w.codeberg, files) && Holds(t.github, w.github, files)
      && (k == |GoLive(w)| ==> t.codeberg.Live? && t.github.Live?)
  {
    var ops := GoLive(w)[..k];
    if k >= 1 {
      var r1 := Perform(r, ops[0]);
      assert Exec(r, ops) == Exec(r1, ops[1..]);
      if k == 2 {
        assert ops[1..] == [ops[1]];
        assert Exec(r1, [ops[1]]) == Perform(r1, ops[1]);
      }
    }
  }

  lemma {:induction false} PlanIs(w: Hosts, files: seq<File>)
    requires files != [] && Accepts(w, files)
    ensures Plan(w, files) == Before(w, files) + GoLive(w)
  {
  }

  lemma {:induction false} UpToSplit(b: seq<Op>, g: seq<Op>, n: nat)
    requires |b| <= n
    ensures UpTo(b + g, n) == b + g[..if n < |b + g| then n - |b| else |g|]
  {
    assert g[..|g|] == g;
  }

  /** From the moment everything is sent, both hosts hold the release; at the end both are live. */
  lemma {:induction false} LateStop(w: Hosts, files: seq<File>, n: nat)
    requires files != [] && Distinct(files) && IdsUnique(w) && Accepts(w, files) && |Before(w, files)| <= n
    ensures var r := Run(w, files, n);
      && Holds(r.codeberg, w.codeberg, files) && Holds(r.github, w.github, files)
      && (n >= |Plan(w, files)| ==> r.codeberg.Live? && r.github.Live?)
  {
    var b, g := Before(w, files), GoLive(w);
    var k := if n < |b + g| then n - |b| else |g|;
    PlanIs(w, files);
    UpToSplit(b, g, n);
    ExecAppend(w, b, g[..k]);
    Filled(w, files);
    GoingLive(w, Exec(w, b), files, k);
  }

  /** A host goes live only at a moment when both hosts hold every file of the release. */
  lemma {:induction false} GoesLiveOnlyWhenBothHold(w: Hosts, files: seq<File>, n: nat)
    requires files != [] && Distinct(files) && IdsUnique(w)
    requires var s, t := Run(w, files, n), Run(w, files, n + 1);
      (t.codeberg.Live? && !s.codeberg.Live?) || (t.github.Live? && !s.github.Live?)
    ensures Accepts(w, files)
    ensures var s := Run(w, files, n); Holds(s.codeberg, w.codeberg, files) && Holds(s.github, w.github, files)
  {
    if !Accepts(w, files) || n + 1 <= |Before(w, files)| {
      EarlyStop(w, files, n);
      EarlyStop(w, files, n + 1);
      assert false;
    } else {
      LateStop(w, files, n);
    }
  }

  /** An uninterrupted run ends with both hosts live exactly when its guards passed; then each host it filled holds exactly the files. */
  lemma {:induction false} CompletesExactlyWhenAccepted(w: Hosts, files: seq<File>, n: nat)
    requires files != [] && Distinct(files) && IdsUnique(w) && n >= |Plan(w, files)|
    requires !(w.codeberg.Live? && w.github.Live?)
    ensures var r := Run(w, files, n); (r.codeberg.Live? && r.github.Live?) <==> Accepts(w, files)
    ensures var r := Run(w, files, n); Accepts(w, files) ==>
      Holds(r.codeberg, w.codeberg, files) && Holds(r.github, w.github, files)
  {
    if Accepts(w, files) {
      assert Plan(w, files) == Before(w, files) + GoLive(w);
      LateStop(w, files, n);
    } else {
      EarlyStop(w, files, n);
    }
  }

  /** What a run may have made live: nothing but the files it was given. */
  lemma {:induction false} NewlyLive(w: Hosts, files: seq<File>, n: nat)
    requires files != [] && Distinct(files) && IdsUnique(w)
    ensures var r := Run(w, files, n);
      && IdsUnique(r)
      && (w.codeberg.Live? ==> r.codeberg == w.codeberg) && (w.github.Live? ==> r.github == w.github)
      && (r.codeberg.Live? && !w.codeberg.Live? ==> Accepts(w, files) && View(r.codeberg.assets) == files)
      && (r.github.Live? && !w.github.Live? ==> Accepts(w, files) && View(r.github.assets) == files)
  {
    ExecKeepsIds(w, UpTo(Plan(w, files), n));
    LiveNeverChanges(w, files, n);
    if !Accepts(w, files) || n <= |Before(w, files)| {
      EarlyStop(w, files, n);
    } else {
      LateStop(w, files, n);
    }
  }

  // ---------------------------------------------------------------- checksums

  ghost predicate HexDigest(h: Digest) { forall x: Text :: |h(x)| == 64 }

  function SumsText(h: Digest, files: seq<File>): Text {
    if files == [] then [] else h(files[0].bytes) + [32, 32] + (files[0].name + [10] + SumsText(h, files[1..]))
  }

  predicate PlainNames(files: seq<File>) { forall i :: 0 <= i < |files| ==> 10 !in files[i].name }

  /** Artifacts as the collection step leaves them: the last file lists the digests of the others. */
  predicate Collected(h: Digest, files: seq<File>) {
    Artifacts(files) && PlainNames(files) && Sums(files) == SumsText(h, files[..|files| - 1])
  }

  /** One line a file: its digest, two spaces and its name. */
  lemma {:induction false} SumsLine(h: Digest, f: File, rest: seq<File>)
    ensures SumsText(h, []) == []
    ensures SumsText(h, [f] + rest) == h(f.bytes) + Ascii("  ") + f.name + Ascii("\n") + SumsText(h, rest)
  {
    assert ([f] + rest)[1..] == rest;
    assert [32, 32] == Ascii("  ") && [10] == Ascii("\n");
  }

  lemma {:induction false} LineSplit(a: Text, b: Text, x: Text, y: Text)
    requires 10 !in a && 10 !in b && a + [10] + x == b + [10] + y
    ensures a == b && x == y
    decreases |a|
  {
    var s, t := a + [10] + x, b + [10] + y;
    assert s[0] == (if a == [] then 10 else a[0]) && t[0] == (if b == [] then 10 else b[0]);
    assert a == [] <==> b == [];
    if a == [] {
      assert s[1..] == x && t[1..] == y;
    } else {
      assert s[1..] == a[1..] + [10] + x && t[1..] == b[1..] + [10] + y;
      LineSplit(a[1..], b[1..], x, y);
      assert a == [a[0]] + a[1..] && b == [b[0]] + b[1..];
    }
  }

  /** Equal checksum texts list the same names in the same order with the same digests. */
  lemma {:induction false} SumsTextReads(h: Digest, a: seq<File>, b: seq<File>)
    requires HexDigest(h) && PlainNames(a) && PlainNames(b) && SumsText(h, a) == SumsText(h, b)
    ensures |a| == |b|
    ensures forall i :: 0 <= i < |a| ==> a[i].name == b[i].name && h(a[i].bytes) == h(b[i].bytes)
    decreases |a|
  {
    assert a != [] ==> |SumsText(h, a)| > 0;
    assert b != [] ==> |SumsText(h, b)| > 0;
    if a != [] && b != [] {
      var da, db := h(a[0].bytes), h(b[0].bytes);
      var ra := a[0].name + [10] + SumsText(h, a[1..]);
      var rb := b[0].name + [10] + SumsText(h, b[1..]);
      assert SumsText(h, a)[..64] == da && SumsText(h, b)[..64] == db;
      assert SumsText(h, a)[66..] == ra && SumsText(h, b)[66..] == rb;
      LineSplit(a[0].name, b[0].name, SumsText(h, a[1..]), SumsText(h, b[1..]));
      SumsTextReads(h, a[1..], b[1..]);
      forall i | 0 <= i < |a| ensures a[i].name == b[i].name && h(a[i].bytes) == h(b[i].bytes) {
        assert i > 0 ==> a[i] == a[1..][i - 1] && b[i] == b[1..][i - 1];
      }
    }
  }

  /** The checksum file stands for the release: with equal checksum files, equal files or a digest collision. */
  lemma {:induction false} SumsBind(h: Digest, a: seq<File>, b: seq<File>)
    requires HexDigest(h) && Collected(h, a) && Collected(h, b) && Sums(a) == Sums(b)
    ensures a == b || exists i :: 0 <= i < |a| && i < |b| && Collision(h, a[i].bytes, b[i].bytes)
  {
    var a', b' := a[..|a| - 1], b[..|b| - 1];
    SumsTextReads(h, a', b');
    assert forall i :: 0 <= i < |a'| ==> a'[i] == a[i] && b'[i] == b[i];
    if forall i :: 0 <= i < |a'| ==> a[i].bytes == b[i].bytes {
      forall i | 0 <= i < |a| ensures a[i] == b[i] {
        assert i < |a'| ==> a'[i].name == b'[i].name;
      }
    } else {
      var i :| 0 <= i < |a'| && a[i].bytes != b[i].bytes;
      assert h(a'[i].bytes) == h(b'[i].bytes);
      assert Collision(h, a[i].bytes, b[i].bytes);
    }
  }

  // ---------------------------------------------------------------- any sequence of runs

  datatype Attempt = Attempt(files: seq<File>, stop: nat)

  const NOTHING := Hosts(Absent, Absent, 0)

  predicate AllCollected(h: Digest, attempts: seq<Attempt>) {
    forall i :: 0 <= i < |attempts| ==> Collected(h, attempts[i].files)
  }

  function Runs(h: Digest, w: Hosts, attempts: seq<Attempt>): Hosts
    requires AllCollected(h, attempts)
    decreases |attempts|
  {
    if attempts == [] then w else Runs(h, Run(w, attempts[0].files, attempts[0].stop), attempts[1..])
  }

  /** Each live host holds what some collection step made, and two live hosts show the same checksum file. */
  predicate Consistent(h: Digest, w: Hosts) {
    && IdsUnique(w)
    && (w.codeberg.Live? ==> Collected(h, View(w.codeberg.assets)))
    && (w.github.Live? ==> Collected(h, View(w.github.assets)))
    && (w.codeberg.Live? && w.github.Live? ==> Sums(View(w.codeberg.assets)) == Sums(View(w.github.assets)))
  }

  lemma {:induction false} RunConsistent(h: Digest, w: Hosts, files: seq<File>, n: nat)
    requires Consistent(h, w) && Collected(h, files)
    ensures Consistent(h, Run(w, files, n))
  {
    NewlyLive(w, files, n);
    if w.codeberg.Live? && Agrees(w.codeberg, files) { SumsSeen(w.codeberg, files); }
    if w.github.Live? && Agrees(w.github, files) { SumsSeen(w.github, files); }
  }

  /** The checksum file a run downloads from a live host is the last of its files. */
  lemma {:induction false} SumsSeen(host: Host, files: seq<File>)
    requires host.Live? && files != [] && Artifacts(View(host.assets)) && Agrees(host, files)
    ensures Sums(View(host.assets)) == Sums(files)
  {
    DownloadFinds(View(host.assets), |host.assets| - 1);
  }

  lemma {:induction false} RunsConsistent(h: Digest, w: Hosts, attempts: seq<Attempt>)
    requires AllCollected(h, attempts) && Consistent(h, w)
    ensures Consistent(h, Runs(h, w, attempts))
    decreases |attempts|
  {
    if attempts != [] {
      assert Collected(h, attempts[0].files);
      RunConsistent(h, w, attempts[0].files, attempts[0].stop);
      RunsConsistent(h, Run(w, attempts[0].files, attempts[0].stop), attempts[1..]);
    }
  }

  /**
   Over any runs, of whatever artifacts, each stopped anywhere: once both hosts are live they hold
   the same files, or at one position the two hosts hold different files with the same digest.
   */
  lemma {:induction false} LiveHostsAgree(h: Digest, attempts: seq<Attempt>)
    requires HexDigest(h) && AllCollected(h, attempts)
    ensures var w := Runs(h, NOTHING, attempts);
      w.codeberg.Live? && w.github.Live? ==>
        var a, b := View(w.codeberg.assets), View(w.github.assets);
        a == b || exists i :: 0 <= i < |a| && i < |b| && Collision(h, a[i].bytes, b[i].bytes)
  {
    RunsConsistent(h, NOTHING, attempts);
    var w := Runs(h, NOTHING, attempts);
    if w.codeberg.Live? && w.github.Live? {
      SumsBind(h, View(w.codeberg.assets), View(w.github.assets));
    }
  }

  // ---------------------------------------------------------------- retries of one release

  function Retries(w: Hosts, files: seq<File>, stops: seq<nat>): Hosts
    requires files != []
    decreases |stops|
  {
    if stops == [] then w else Retries(Run(w, files, stops[0]), files, stops[1..])
  }

  predicate OnlyFiles(h: Host, files: seq<File>) { forall x :: x in AssetsOf(h) ==> x.file in files }

  predicate Uploads(op: Op, files: seq<File>) {
    (op.UploadCodeberg? || op.UploadGithub?) ==> op.file in files
  }

  lemma {:induction false} PerformOnlyFiles(w: Hosts, op: Op, files: seq<File>)
    requires OnlyFiles(w.codeberg, files) && OnlyFiles(w.github, files) && Uploads(op, files)
    ensures OnlyFiles(Perform(w, op).codeberg, files) && OnlyFiles(Perform(w, op).github, files)
  {
    match op
    case DeleteCodeberg(id) => WithoutIdIs(AssetsOf(w.codeberg), id);
    case DeleteGithub(name) => WithoutNameIs(AssetsOf(w.github), name);
    case _ =>
  }

  lemma {:induction false} ExecOnlyFiles(w: Hosts, ops: seq<Op>, files: seq<File>)
    requires OnlyFiles(w.codeberg, files) && OnlyFiles(w.github, files)
    requires forall op :: op in ops ==> Uploads(op, files)
    ensures OnlyFiles(Exec(w, ops).codeberg, files) && OnlyFiles(Exec(w, ops).github, files)
    decreases |ops|
  {
    if ops != [] {
      assert ops[0] in ops;
      PerformOnlyFiles(w, ops[0], files);
      ExecOnlyFiles(Perform(w, ops[0]), ops[1..], files);
    }
  }

  lemma {:induction false} FillsUpload(existing: seq<Asset>, some: seq<File>, files: seq<File>)
    requires forall f :: f in some ==> f in files
    ensures forall op :: op in FillCodeberg(existing, some) + FillGithub(some) ==> Uploads(op, files)
    decreases |some|
  {
    if some != [] {
      assert some[0] in some;
      DeletesAre(existing, some[0].name);
      FillsUpload(existing, some[1..], files);
      var cb, gh := FillCodeberg(existing, some[1..]), FillGithub(some[1..]);
      assert forall op :: op in cb || op in gh ==> op in cb + gh;
    }
  }

  lemma {:induction false} PlanUploads(w: Hosts, files: seq<File>)
    requires files != []
    ensures forall op :: op in Plan(w, files) ==> Uploads(op, files)
  {
    var cb, gh := FillCodeberg(AssetsOf(w.codeberg), files), FillGithub(files);
    FillsUpload(AssetsOf(w.codeberg), files, files);
    assert forall op :: op in cb || op in gh ==> op in cb + gh;
  }

  lemma {:induction false} OnlyFilesNames(h: Host, files: seq<File>)
    requires OnlyFiles(h, files)
    ensures NoExtras(h, files)
  {
    if h.Draft? {
      forall f | f in View(h.assets) ensures f in files {
        var i :| 0 <= i < |h.assets| && View(h.assets)[i] == f;
        assert h.assets[i] in h.assets;
      }
    }
  }

  predicate Retriable(w: Hosts, files: seq<File>) {
    && IdsUnique(w)
    && OnlyFiles(w.codeberg, files) && OnlyFiles(w.github, files)
    && (w.codeberg.Live? ==> View(w.codeberg.assets) == files)
    && (w.github.Live? ==> View(w.github.assets) == files)
  }

  lemma {:induction false} RetryKeeps(w: Hosts, files: seq<File>, n: nat)
    requires Artifacts(files) && Retriable(w, files)
    ensures Retriable(Run(w, files, n), files)
  {
    var ops := UpTo(Plan(w, files), n);
    NewlyLive(w, files, n);
    PlanUploads(w, files);
    assert forall op :: op in ops ==> op in Plan(w, files);
    ExecOnlyFiles(w, ops, files);
  }

  lemma {:induction false} RetriesKeep(w: Hosts, files: seq<File>, stops: seq<nat>)
    requires Artifacts(files) && Retriable(w, files)
    ensures Retriable(Retries(w, files, stops), files)
    decreases |stops|
  {
    if stops != [] {
      RetryKeeps(w, files, stops[0]);
      RetriesKeep(Run(w, files, stops[0]), files, stops[1..]);
    }
  }

  lemma {:induction false} RetriableAccepts(w: Hosts, files: seq<File>)
    requires Artifacts(files) && Retriable(w, files)
    ensures Accepts(w, files)
  {
    OnlyFilesNames(w.codeberg, files);
    OnlyFilesNames(w.github, files);
    DownloadFinds(files, |files| - 1);
  }

  predicate Done(w: Hosts, files: seq<File>) {
    && w.codeberg.Live? && View(w.codeberg.assets) == files
    && w.github.Live? && View(w.github.assets) == files
  }

  lemma {:induction false} RetryCompletes(w: Hosts, files: seq<File>, n: nat)
    requires Artifacts(files) && Retriable(w, files) && n >= |Plan(w, files)|
    ensures Done(Run(w, files, n), files)
  {
    RetriableAccepts(w, files);
    RetryKeeps(w, files, n);
    assert |Plan(w, files)| >= |Before(w, files)| by {
      assert Plan(w, files) == Before(w, files) + GoLive(w);
    }
    LateStop(w, files, n);
  }

  /**
   Starting from no release, after any retries of the same artifacts each stopped anywhere: a live
   host holds exactly the files, and one uninterrupted run leaves both hosts live with exactly them.
   */
  lemma {:induction false} RetriesConverge(files: seq<File>, stops: seq<nat>, n: nat)
    requires Artifacts(files)
    ensures var w := Retries(NOTHING, files, stops);
      && (w.codeberg.Live? ==> View(w.codeberg.assets) == files)
      && (w.github.Live? ==> View(w.github.assets) == files)
      && (n >= |Plan(w, files)| ==> Done(Run(w, files, n), files))
  {
    RetriesKeep(NOTHING, files, stops);
    var w := Retries(NOTHING, files, stops);
    if n >= |Plan(w, files)| { RetryCompletes(w, files, n); }
  }

  // ---------------------------------------------------------------- the run as it is carried out

  datatype Outcome = Published | Refused | Stopped

  /** `ops` were sent in order until done or until `n` changes were used up. */
  predicate Went(w: Hosts, n: nat, ops: seq<Op>, after: Hosts, left: nat, ok: bool) {
    && ok == (|ops| <= n)
    && after == Exec(w, UpTo(ops, n))
    && left == if ok then n - |ops| else 0
  }

  lemma {:induction false} WentOn(w: Hosts, n: nat, a: seq<Op>, mid: Hosts, left: nat, b: seq<Op>, after: Hosts, left': nat, ok: bool)
    requires Went(w, n, a, mid, left, true) && Went(mid, left, b, after, left', ok)
    ensures Went(w, n, a + b, after, left', ok)
  {
    ExecAppend(w, a, UpTo(b, left));
    assert UpTo(a + b, n) == a + UpTo(b, left);
  }

  lemma {:induction false} WentStopped(w: Hosts, n: nat, a: seq<Op>, after: Hosts, left: nat, b: seq<Op>)
    requires Went(w, n, a, after, left, false)
    ensures Went(w, n, a + b, after, left, false)
  {
    assert UpTo(a + b, n) == UpTo(a, n);
  }

  lemma {:induction false} FillCodebergStep(existing: seq<Asset>, files: seq<File>)
    requires files != []
    ensures FillCodeberg(existing, files)
      == (Deletes(existing, files[0].name) + [UploadCodeberg(files[0])]) + FillCodeberg(existing, files[1..])
  {
  }

  class Publisher {
    var codeberg: Host
    var github: Host
    var nextId: nat
    /** How many remote changes still go through before the run is stopped. */
    var left: nat

    function World(): Hosts
      reads this
    {
      Hosts(codeberg, github, nextId)
    }

    constructor (w: Hosts, stop: nat)
      ensures World() == w && left == stop
    {
      codeberg, github, nextId, left := w.codeberg, w.github, w.nextId, stop;
    }

    method Send(op: Op) returns (ok: bool)
      modifies this
      ensures Went(old(World()), old(left), [op], World(), left, ok)
    {
      ghost var w0 := World();
      assert Exec(w0, [op]) == Perform(w0, op);
      ok := left > 0;
      if ok {
        var w := Perform(World(), op);
        codeberg, github, nextId, left := w.codeberg, w.github, w.nextId, left - 1;
      }
    }

    method SendIf(wanted: bool, op: Op) returns (ok: bool)
      modifies this
      ensures Went(old(World()), old(left), if wanted then [op] else [], World(), left, ok)
    {
      ok := true;
      if wanted { ok := Send(op); }
    }

    method DeleteNamesakes(existing: seq<Asset>, name: Text) returns (ok: bool)
      modifies this
      ensures Went(old(World()), old(left), Deletes(existing, name), World(), left, ok)
    {
      ghost var w0, n, all := World(), left, Deletes(existing, name);
      ghost var done: seq<Op> := [];
      for j := 0 to |existing|
        invariant Went(w0, n, done, World(), left, true)
        invariant all == done + Deletes(existing[j..], name)
      {
        ghost var w1, n1 := World(), left;
        ghost var now := if existing[j].file.name == name then [DeleteCodeberg(existing[j].id)] else [];
        assert existing[j..][1..] == existing[j + 1..];
        assert all == (done + now) + Deletes(existing[j + 1..], name);
        ok := SendIf(existing[j].file.name == name, DeleteCodeberg(existing[j].id));
        WentOn(w0, n, done, w1, n1, now, World(), left, ok);
        done := done + now;
        if !ok {
          WentStopped(w0, n, done, World(), left, Deletes(existing[j + 1..], name));
          return;
        }
      }
      assert all == done;
      ok := true;
    }

    method ReplaceOneOnCodeberg(existing: seq<Asset>, f: File) returns (ok: bool)
      modifies this
      ensures Went(old(World()), old(left), Deletes(existing, f.name) + [UploadCodeberg(f)], World(), left, ok)
    {
      ghost var w0, n, dels := World(), left, Deletes(existing, f.name);
      ok := DeleteNamesakes(existing, f.name);
      if !ok {
        WentStopped(w0, n, dels, World(), left, [UploadCodeberg(f)]);
        return;
      }
      ghost var w1, n1 := World(), left;
      ok := Send(UploadCodeberg(f));
      WentOn(w0, n, dels, w1, n1, [UploadCodeberg(f)], World(), left, ok);
    }

    method ReplaceOnCodeberg(existing: seq<Asset>, files: seq<File>) returns (ok: bool)
      modifies this
      ensures Went(old(World()), old(left), FillCodeberg(existing, files), World(), left, ok)
    {
      ghost var w0, n, all := World(), left, FillCodeberg(existing, files);
      ghost var done: seq<Op> := [];
      for i := 0 to |files|
        invariant Went(w0, n, done, World(), left, true)
        invariant all == done + FillCodeberg(existing, files[i..])
      {
        ghost var one := Deletes(existing, files[i].name) + [UploadCodeberg(files[i])];
        ghost var rest := FillCodeberg(existing, files[i + 1..]);
        FillCodebergStep(existing, files[i..]);
        assert files[i..][1..] == files[i + 1..];
        Regroup(done, one, rest);
        ghost var w1, n1 := World(), left;
        ok := ReplaceOneOnCodeberg(existing, files[i]);
        WentOn(w0, n, done, w1, n1, one, World(), left, ok);
        done := done + one;
        if !ok {
          WentStopped(w0, n, done, World(), left, rest);
          return;
        }
      }
      assert all == done;
      ok := true;
    }

    method ClobberOnGithub(f: File) returns (ok: bool)
      modifies this
      ensures Went(old(World()), old(left), [DeleteGithub(f.name), UploadGithub(f)], World(), left, ok)
    {
      ghost var w0, n := World(), left;
      assert [DeleteGithub(f.name)] + [UploadGithub(f)] == [DeleteGithub(f.name), UploadGithub(f)];
      ok := Send(DeleteGithub(f.name));
      if !ok {
        WentStopped(w0, n, [DeleteGithub(f.name)], World(), left, [UploadGithub(f)]);
        return;
      }
      ghost var w1, n1 := World(), left;
      ok := Send(UploadGithub(f));
      WentOn(w0, n, [DeleteGithub(f.name)], w1, n1, [UploadGithub(f)], World(), left, ok);
    }

    method ReplaceOnGithub(files: seq<File>) returns (ok: bool)
      modifies this
      ensures Went(old(World()), old(left), FillGithub(files), World(), left, ok)
    {
      ghost var w0, n, all := World(), left, FillGithub(files);
      ghost var done: seq<Op> := [];
      for i := 0 to |files|
        invariant Went(w0, n, done, World(), left, true)
        invariant all == done + FillGithub(files[i..])
      {
        ghost var two, rest := [DeleteGithub(files[i].name), UploadGithub(files[i])], FillGithub(files[i + 1..]);
        assert files[i..][1..] == files[i + 1..];
        Regroup(done, two, rest);
        ghost var w1, n1 := World(), left;
        ok := ClobberOnGithub(files[i]);
        WentOn(w0, n, done, w1, n1, two, World(), left, ok);
        done := done + two;
        if !ok {
          WentStopped(w0, n, done, World(), left, rest);
          return;
        }
      }
      assert all == done;
      ok := true;
    }

    /** Both drafts filled, each by its own listing of what is there now. */
    method Fill(files: seq<File>) returns (ok: bool)
      requires !codeberg.Absent? && !github.Absent?
      modifies this
      ensures Went(old(World()), old(left), Fills(old(World()), files), World(), left, ok)
    {
      ghost var w0, n := World(), left;
      ghost var cb := if codeberg.Live? then [] else FillCodeberg(AssetsOf(codeberg), files);
      ghost var gh := if github.Live? then [] else FillGithub(files);
      assert Fills(w0, files) == cb + gh;
      var fillGithub := github.Draft?;
      ok := true;
      if codeberg.Draft? {
        ok := ReplaceOnCodeberg(codeberg.assets, files);
      }
      if !ok {
        WentStopped(w0, n, cb, World(), left, gh);
        return;
      }
      ghost var w1, n1 := World(), left;
      if fillGithub { ok := ReplaceOnGithub(files); }
      WentOn(w0, n, cb, w1, n1, gh, World(), left, ok);
    }

    method Create() returns (ok: bool)
      modifies this
      ensures Went(old(World()), old(left), Creates(old(World())), World(), left, ok)
    {
      ghost var w0, n := World(), left;
      ghost var cb, gh := if codeberg.Absent? then [CreateCodeberg] else [], if github.Absent? then [CreateGithub] else [];
      var onGithub := github.Absent?;
      ok := SendIf(codeberg.Absent?, CreateCodeberg);
      if !ok {
        WentStopped(w0, n, cb, World(), left, gh);
        return;
      }
      ghost var w1, n1 := World(), left;
      ok := SendIf(onGithub, CreateGithub);
      WentOn(w0, n, cb, w1, n1, gh, World(), left, ok);
    }

    /** Everything after the drafts exist: nothing goes live before both are filled. */
    method FillAndGoLive(files: seq<File>) returns (ok: bool)
      requires !codeberg.Absent? && !github.Absent?
      modifies this
      ensures Went(old(World()), old(left), Fills(old(World()), files) + GoLive(old(World())), World(), left, ok)
    {
      ghost var w0, n, fills := World(), left, Fills(World(), files);
      ghost var cb, gh := if codeberg.Draft? then [PublishCodeberg] else [], if github.Draft? then [PublishGithub] else [];
      var onCodeberg, onGithub := codeberg.Draft?, github.Draft?;
      ok := Fill(files);
      if !ok {
        WentStopped(w0, n, fills, World(), left, cb + gh);
        return;
      }
      ghost var w1, n1 := World(), left;
      ok := SendIf(onCodeberg, PublishCodeberg);
      WentOn(w0, n, fills, w1, n1, cb, World(), left, ok);
      Regroup(fills, cb, gh);
      if !ok {
        WentStopped(w0, n, fills + cb, World(), left, gh);
        return;
      }
      ghost var w2, n2 := World(), left;
      ok := SendIf(onGithub, PublishGithub);
      WentOn(w0, n, fills + cb, w2, n2, gh, World(), left, ok);
    }

    /** One run over the two hosts: it carries out the plan, or the part of it before the stop. */
    method Publish(files: seq<File>) returns (outcome: Outcome)
      requires files != []
      modifies this
      ensures World() == Run(old(World()), files, old(left))
      ensures outcome.Published? <==> Accepts(old(World()), files) && |Plan(old(World()), files)| <= old(left)
      ensures outcome.Refused? <==> !Accepts(old(World()), files) && |Plan(old(World()), files)| <= old(left)
    {
      ghost var w0, n := World(), left;
      if !Agrees(codeberg, files) || !Agrees(github, files) { return Refused; }
      var extras := !NoExtras(codeberg, files) || !NoExtras(github, files);
      ghost var later := if extras then [] else Fills(w0, files) + GoLive(w0);
      assert Plan(w0, files) == Creates(w0) + later;
      var ok := Create();
      if !ok {
        WentStopped(w0, n, Creates(w0), World(), left, later);
        return Stopped;
      }
      Created(w0);
      if extras { return Refused; }
      ghost var w1, n1 := World(), left;
      assert Fills(w1, files) + GoLive(w1) == later;
      ok := FillAndGoLive(files);
      WentOn(w0, n, Creates(w0), w1, n1, later, World(), left, ok);
      return if ok then Published else Stopped;
    }
  }
}
