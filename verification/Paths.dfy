/**
 Lexical path normalisation for the Merkle commitment.

 A path is its UTF-8 bytes: every character the normalisation looks at is ASCII, so splitting,
 trimming and comparing bytes is splitting, trimming and comparing the text.
 */
module Paths {
  import opened Bytes

  const SLASH: byte := 47
  const BACKSLASH: byte := 92
  const DOT: byte := 46
  const COLON: byte := 58

  const HERE: Text := [DOT]
  const UP: Text := [DOT, DOT]

  // ---------------------------------------------------------------- splitting and joining

  predicate SlashFree(c: Text) { SLASH !in c }

  function Split(p: Text): (cs: seq<Text>)
    ensures |cs| > 0
  {
    if p == [] then [[]] else
    var rest := Split(p[1..]);
    if p[0] == SLASH then [[]] + rest else [[p[0]] + rest[0]] + rest[1..]
  }

  function Join(cs: seq<Text>): Text {
    if cs == [] then [] else if |cs| == 1 then cs[0] else cs[0] + [SLASH] + Join(cs[1..])
  }

  lemma {:induction false} SplitIsSlashFree(p: Text)
    ensures forall i :: 0 <= i < |Split(p)| ==> SlashFree(Split(p)[i])
  {
    if p != [] { SplitIsSlashFree(p[1..]); }
  }

  lemma {:induction false} SplitOne(c: Text)
    requires SlashFree(c)
    ensures Split(c) == [c]
  {
    if c != [] {
      SplitOne(c[1..]);
      assert c == [c[0]] + c[1..];
    }
  }

  lemma {:induction false} SplitAfter(c: Text, p: Text)
    requires SlashFree(c)
    ensures Split(c + [SLASH] + p) == [c] + Split(p)
  {
    var all := c + [SLASH] + p;
    if c == [] {
      assert all[1..] == p;
    } else {
      SplitAfter(c[1..], p);
      assert all[1..] == c[1..] + [SLASH] + p && all[0] == c[0];
      assert c == [c[0]] + c[1..];
    }
  }

  /** Splitting undoes joining, for one component or more. */
  lemma {:induction false} SplitJoin(cs: seq<Text>)
    requires cs != [] && forall i :: 0 <= i < |cs| ==> SlashFree(cs[i])
    ensures Split(Join(cs)) == cs
  {
    if |cs| == 1 {
      SplitOne(cs[0]);
    } else {
      SplitJoin(cs[1..]);
      SplitAfter(cs[0], Join(cs[1..]));
    }
  }

  lemma {:induction false} JoinAppend(a: seq<Text>, b: seq<Text>)
    requires a != [] && b != []
    ensures Join(a + b) == Join(a) + [SLASH] + Join(b)
  {
    assert (a + b)[1..] == a[1..] + b;
    if |a| > 1 { JoinAppend(a[1..], b); } else { assert a[1..] + b == b; }
  }

  // ---------------------------------------------------------------- what components mean

  /** Where a list of components leads: so many levels up, then down through these names. */
  datatype Place = Place(ups: nat, names: seq<Text>)

  const START := Place(0, [])

  predicate ProperName(c: Text) { c != [] && c != HERE && c != UP && SlashFree(c) }

  predicate ProperPlace(d: Place) { forall i :: 0 <= i < |d.names| ==> ProperName(d.names[i]) }

  /** A name goes down, `..` goes up, and an empty component or `.` stays. */
  function Move(d: Place, c: Text): Place {
    if c == [] || c == HERE then d
    else if c != UP then d.(names := d.names + [c])
    else if d.names == [] then d.(ups := d.ups + 1)
    else d.(names := d.names[..|d.names| - 1])
  }

  function Denote(cs: seq<Text>): Place {
    if cs == [] then START else Move(Denote(cs[..|cs| - 1]), cs[|cs| - 1])
  }

  function Ups(n: nat): (cs: seq<Text>)
    ensures |cs| == n && forall i :: 0 <= i < n ==> cs[i] == UP
  {
    seq(n, i => UP)
  }

  /** The shortest components for a place. */
  function Render(d: Place): seq<Text> { Ups(d.ups) + d.names }

  lemma {:induction false} DenoteIsProper(cs: seq<Text>)
    requires forall i :: 0 <= i < |cs| ==> SlashFree(cs[i])
    ensures ProperPlace(Denote(cs))
  {
    if cs != [] { DenoteIsProper(cs[..|cs| - 1]); }
  }

  lemma {:induction false} DenoteUps(n: nat)
    ensures Denote(Ups(n)) == Place(n, [])
  {
    if n > 0 {
      DenoteUps(n - 1);
      assert Ups(n)[..n - 1] == Ups(n - 1);
    }
  }

  lemma {:induction false} DenoteNames(n: nat, names: seq<Text>)
    requires ProperPlace(Place(n, names))
    ensures Denote(Ups(n) + names) == Place(n, names)
  {
    if names == [] {
      assert Ups(n) + names == Ups(n);
      DenoteUps(n);
    } else {
      var init := names[..|names| - 1];
      assert ProperName(names[|names| - 1]);
      DenoteNames(n, init);
      assert (Ups(n) + names)[..n + |names| - 1] == Ups(n) + init;
      assert init + [names[|names| - 1]] == names;
    }
  }

  /** Rendering a place and reading it again leads to the same place. */
  lemma {:induction false} DenoteRender(d: Place)
    requires ProperPlace(d)
    ensures Denote(Render(d)) == d
    ensures Denote(Split(Join(Render(d)))) == d
    ensures Render(d) != [] ==> Split(Join(Render(d))) == Render(d)
  {
    DenoteNames(d.ups, d.names);
    var cs := Render(d);
    if cs == [] {
      var nothing: seq<Text> := [[]];
      assert Split([]) == nothing && nothing[..0] == [] && Denote(nothing) == Move(Denote([]), []);
      assert d == START;
    } else {
      assert forall i :: 0 <= i < |cs| ==> SlashFree(cs[i]);
      SplitJoin(cs);
    }
  }

  // ---------------------------------------------------------------- normalize_components

  function NormalComponents(p: Text): Text { Join(Render(Denote(Split(p)))) }

  function Pushed(stack: seq<Text>, c: Text): seq<Text> {
    if c == [] || c == HERE then stack
    else if c == UP && stack != [] && stack[|stack| - 1] != UP then stack[..|stack| - 1]
    else stack + [c]
  }

  /** One move on the place is one push, pop or nothing on its rendering. */
  lemma {:induction false} RenderMove(d: Place, c: Text)
    requires ProperPlace(d)
    ensures Render(Move(d, c)) == Pushed(Render(d), c)
  {
    TopOfStack(d);
  }

  lemma {:induction false} StackNext(cs: seq<Text>, i: nat)
    requires i < |cs| && forall k :: 0 <= k < |cs| ==> SlashFree(cs[k])
    ensures Render(Denote(cs[..i + 1])) == Pushed(Render(Denote(cs[..i])), cs[i])
  {
    assert cs[..i + 1][..i] == cs[..i];
    DenoteIsProper(cs[..i]);
    RenderMove(Denote(cs[..i]), cs[i]);
  }

  /** The stack loop: what is on the stack is always the rendering of what was read. */
  method NormalizeComponents(path: Text) returns (r: Text)
    ensures r == NormalComponents(path)
  {
    var components := Split(path);
    var stack: seq<Text> := [];
    var i := 0;
    SplitIsSlashFree(path);
    assert Render(START) == [];
    while i < |components|
      invariant 0 <= i <= |components|
      invariant stack == Render(Denote(components[..i]))
    {
      var c := components[i];
      StackNext(components, i);
      if c == [] || c == HERE {
      } else if c == UP {
        if stack != [] && stack[|stack| - 1] != UP {
          stack := stack[..|stack| - 1];
        } else {
          stack := stack + [c];
        }
      } else {
        stack := stack + [c];
      }
      i := i + 1;
    }
    assert components[..i] == components;
    r := Join(stack);
  }

  lemma {:induction false} TopOfStack(d: Place)
    requires ProperPlace(d)
    ensures Render(d) != [] && Render(d)[|Render(d)| - 1] != UP <==> d.names != []
  {
    if d.names != [] { assert ProperName(d.names[|d.names| - 1]); }
  }

  /** Normalising keeps where a path leads. */
  lemma {:induction false} ComponentsKeepMeaning(p: Text)
    ensures Denote(Split(NormalComponents(p))) == Denote(Split(p))
  {
    SplitIsSlashFree(p);
    DenoteIsProper(Split(p));
    DenoteRender(Denote(Split(p)));
  }

  /** And is canonical: two paths normalise equally exactly when they lead to the same place. */
  lemma {:induction false} ComponentsCanonical(p: Text, q: Text)
    ensures NormalComponents(p) == NormalComponents(q) <==> Denote(Split(p)) == Denote(Split(q))
  {
    ComponentsKeepMeaning(p);
    ComponentsKeepMeaning(q);
  }

  // ---------------------------------------------------------------- normalize_relative_path

  datatype Namespace = Empty | Current | Relative | Rooted | Unc | DriveRelative | DriveRooted

  datatype NormalizedPath = NormalizedPath(namespace: Namespace, value: Text)

  predicate IsAlphabetic(b: byte) { 65 <= b <= 90 || 97 <= b <= 122 }

  predicate HasDrivePrefix(p: Text) { |p| >= 2 && IsAlphabetic(p[0]) && p[1] == COLON }

  function Portable(p: Text): (r: Text)
    ensures |r| == |p| && BACKSLASH !in r
    ensures forall i :: 0 <= i < |p| ==> r[i] == p[i] || (p[i] == BACKSLASH && r[i] == SLASH)
  {
    seq(|p|, i requires 0 <= i < |p| => if p[i] == BACKSLASH then SLASH else p[i])
  }

  function TrimStart(p: Text): Text { if p != [] && p[0] == SLASH then TrimStart(p[1..]) else p }

  function Kept(cs: seq<Text>): seq<Text> {
    if cs == [] then [] else
    Kept(cs[..|cs| - 1]) + (if cs[|cs| - 1] == [] || cs[|cs| - 1] == HERE then [] else [cs[|cs| - 1]])
  }

  function AuthorityLength(n: nat): nat { if n < 2 then n else 2 }

  function NormalUnc(p: Text): Text {
    var cs := Kept(Split(p));
    var n := AuthorityLength(|cs|);
    var authority, tail := Join(cs[..n]), NormalComponents(Join(cs[n..]));
    if authority == [] then [SLASH, SLASH]
    else if tail == [] then [SLASH, SLASH] + authority
    else [SLASH, SLASH] + authority + [SLASH] + tail
  }

  predicate StartsWith(p: Text, x: Text) { x <= p }

  function Normalize(path: Text): NormalizedPath {
    if path == [] then NormalizedPath(Empty, []) else
    var portable := Portable(path);
    if HasDrivePrefix(portable) then
      var drive, remainder := portable[..2], portable[2..];
      var rooted, normal := StartsWith(remainder, [SLASH]), NormalComponents(TrimStart(remainder));
      if rooted then NormalizedPath(DriveRooted, drive + [SLASH] + normal)
      else NormalizedPath(DriveRelative, drive + normal)
    else if StartsWith(portable, [SLASH, SLASH]) then NormalizedPath(Unc, NormalUnc(TrimStart(portable)))
    else if StartsWith(portable, [SLASH]) then
      NormalizedPath(Rooted, [SLASH] + NormalComponents(TrimStart(portable)))
    else
      var normal := NormalComponents(portable);
      if normal == [] then NormalizedPath(Current, HERE) else NormalizedPath(Relative, normal)
  }

  /** What a path says: its anchor, and where it leads from there. */
  datatype Meaning =
    | Nothing
    | FromHere(place: Place)
    | FromRoot(place: Place)
    | FromShare(authority: seq<Text>, place: Place)
    | FromDrive(drive: Text, rooted: bool, place: Place)

  function Means(path: Text): Meaning {
    if path == [] then Nothing else
    var portable := Portable(path);
    if HasDrivePrefix(portable) then
      FromDrive(portable[..2], StartsWith(portable[2..], [SLASH]), Denote(Split(portable[2..])))
    else if StartsWith(portable, [SLASH, SLASH]) then
      var cs := Kept(Split(portable));
      FromShare(cs[..AuthorityLength(|cs|)], Denote(cs[AuthorityLength(|cs|)..]))
    else if StartsWith(portable, [SLASH]) then FromRoot(Denote(Split(portable)))
    else FromHere(Denote(Split(portable)))
  }

  /** The normal form of a meaning. */
  function Write(m: Meaning): NormalizedPath {
    match m
    case Nothing => NormalizedPath(Empty, [])
    case FromHere(d) => if Render(d) == [] then NormalizedPath(Current, HERE) else NormalizedPath(Relative, Join(Render(d)))
    case FromRoot(d) => NormalizedPath(Rooted, [SLASH] + Join(Render(d)))
    case FromShare(authority, d) => NormalizedPath(Unc, [SLASH, SLASH] + Join(authority + Render(d)))
    case FromDrive(drive, rooted, d) =>
      if rooted then NormalizedPath(DriveRooted, drive + [SLASH] + Join(Render(d)))
      else NormalizedPath(DriveRelative, drive + Join(Render(d)))
  }

  predicate ProperAuthority(c: Text) { c != [] && c != HERE && SlashFree(c) }

  predicate ProperMeaning(m: Meaning) {
    match m
    case Nothing => true
    case FromHere(d) => ProperPlace(d)
    case FromRoot(d) => ProperPlace(d)
    case FromShare(authority, d) =>
      && ProperPlace(d) && |authority| <= 2 && (|authority| < 2 ==> d == START)
      && (forall i :: 0 <= i < |authority| ==> ProperAuthority(authority[i]))
    case FromDrive(drive, _, d) => ProperPlace(d) && |drive| == 2 && HasDrivePrefix(drive)
  }

  predicate EitherSlash(p: Text, i: nat) { i < |p| && (p[i] == '/' as int || p[i] == '\\' as int) }

  /** What the first characters make of a path: nothing, a letter and a colon, two slashes, one, or none. */
  lemma {:induction false} NamespaceIs(p: Text)
    ensures HERE == Ascii(".") && UP == Ascii("..") && [SLASH] == Ascii("/")
    ensures
      var n := Normalize(p).namespace;
      var drive := |p| >= 2 && p[1] == ':' as int && ('A' as int <= p[0] <= 'Z' as int || 'a' as int <= p[0] <= 'z' as int);
      && (n == Empty <==> p == [])
      && (n == DriveRooted <==> (drive && EitherSlash(p, 2)))
      && (n == DriveRelative <==> (drive && !EitherSlash(p, 2)))
      && (n == Unc <==> (EitherSlash(p, 0) && EitherSlash(p, 1)))
      && (n == Rooted <==> (EitherSlash(p, 0) && !EitherSlash(p, 1)))
      && (n == Current <==> (p != [] && !drive && !EitherSlash(p, 0) && Denote(Split(Portable(p))) == START))
  {
    var q := Portable(p);
    if |q| >= 2 { SlashHead(q[2..]); }
    SlashHead(q);
    HereIsStart(p);
  }

  lemma {:induction false} SlashHead(t: Text)
    ensures StartsWith(t, [SLASH]) <==> t != [] && t[0] == SLASH
    ensures StartsWith(t, [SLASH, SLASH]) <==> |t| >= 2 && t[0] == SLASH && t[1] == SLASH
  {
  }

  lemma {:induction false} HereIsStart(p: Text)
    ensures NormalComponents(Portable(p)) == [] <==> Denote(Split(Portable(p))) == START
  {
    SplitIsSlashFree(Portable(p));
    DenoteIsProper(Split(Portable(p)));
    RenderJoinEmpty(Denote(Split(Portable(p))));
  }

  // Leading slashes are empty components, which neither lead anywhere nor are kept.

  lemma {:induction false} DenoteAppend(a: seq<Text>, b: seq<Text>)
    ensures Denote(a) == START ==> Denote(a + b) == Denote(b)
  {
    if b == [] {
      assert a + b == a;
    } else {
      DenoteAppend(a, b[..|b| - 1]);
      assert (a + b)[..|a + b| - 1] == a + b[..|b| - 1];
    }
  }

  lemma {:induction false} KeptAppend(a: seq<Text>, b: seq<Text>)
    ensures Kept(a + b) == Kept(a) + Kept(b)
  {
    if b == [] {
      assert a + b == a;
    } else {
      KeptAppend(a, b[..|b| - 1]);
      assert (a + b)[..|a + b| - 1] == a + b[..|b| - 1];
    }
  }

  lemma {:induction false} TrimIsSilent(p: Text)
    ensures Denote(Split(TrimStart(p))) == Denote(Split(p))
    ensures Kept(Split(TrimStart(p))) == Kept(Split(p))
  {
    if p != [] && p[0] == SLASH {
      TrimIsSilent(p[1..]);
      var nothing: seq<Text> := [[]];
      assert nothing[..0] == [];
      assert Denote(nothing) == START && Kept(nothing) == [];
      DenoteAppend(nothing, Split(p[1..]));
      KeptAppend(nothing, Split(p[1..]));
    }
  }

  lemma {:induction false} KeptIsProper(cs: seq<Text>)
    requires forall i :: 0 <= i < |cs| ==> SlashFree(cs[i])
    ensures forall i :: 0 <= i < |Kept(cs)| ==> SlashFree(Kept(cs)[i]) && Kept(cs)[i] != [] && Kept(cs)[i] != HERE
  {
    if cs != [] { KeptIsProper(cs[..|cs| - 1]); }
  }

  lemma {:induction false} JoinIsEmpty(cs: seq<Text>)
    requires forall i :: 0 <= i < |cs| ==> cs[i] != []
    ensures Join(cs) == [] <==> cs == []
  {
  }

  lemma {:induction false} UncIs(p: Text)
    ensures
      var cs := Kept(Split(p));
      var n := AuthorityLength(|cs|);
      NormalUnc(p) == [SLASH, SLASH] + Join(cs[..n] + Render(Denote(cs[n..])))
  {
    SplitIsSlashFree(p);
    var cs := Kept(Split(p));
    KeptIsProper(Split(p));
    var n := AuthorityLength(|cs|);
    var d := Denote(cs[n..]);
    JoinIsEmpty(cs[..n]);
    DenoteIsProper(cs[n..]);
    if cs[n..] == [] {
      DenoteRender(START);
      assert Split([]) == Split(Join(Render(START)));
    } else {
      SplitJoin(cs[n..]);
    }
    assert NormalComponents(Join(cs[n..])) == Join(Render(d));
    assert forall i :: 0 <= i < |Render(d)| ==> Render(d)[i] != [];
    JoinIsEmpty(Render(d));
    if Render(d) == [] {
      assert cs[..n] + Render(d) == cs[..n];
    } else {
      JoinAppend(cs[..n], Render(d));
      assert [SLASH, SLASH] + Join(cs[..n]) + [SLASH] + Join(Render(d))
          == [SLASH, SLASH] + (Join(cs[..n]) + [SLASH] + Join(Render(d)));
    }
  }

  predicate Written(path: Text) { ProperMeaning(Means(path)) && Normalize(path) == Write(Means(path)) }

  lemma {:induction false} DriveWritten(path: Text)
    requires path != [] && HasDrivePrefix(Portable(path))
    ensures Written(path)
  {
    var rest := Portable(path)[2..];
    SplitIsSlashFree(rest);
    DenoteIsProper(Split(rest));
    TrimIsSilent(rest);
  }

  lemma {:induction false} ShareWritten(path: Text)
    requires path != [] && !HasDrivePrefix(Portable(path)) && StartsWith(Portable(path), [SLASH, SLASH])
    ensures Written(path)
  {
    var p := Portable(path);
    var cs := Kept(Split(p));
    var n := AuthorityLength(|cs|);
    SplitIsSlashFree(p);
    TrimIsSilent(p);
    UncIs(TrimStart(p));
    KeptIsProper(Split(p));
    DenoteIsProper(cs[n..]);
    assert n < 2 ==> cs[n..] == [];
  }

  lemma {:induction false} RootWritten(path: Text)
    requires path != [] && !HasDrivePrefix(Portable(path))
    requires StartsWith(Portable(path), [SLASH]) && !StartsWith(Portable(path), [SLASH, SLASH])
    ensures Written(path)
  {
    var p := Portable(path);
    SplitIsSlashFree(p);
    DenoteIsProper(Split(p));
    TrimIsSilent(p);
  }

  lemma {:induction false} HereWritten(path: Text)
    requires path != [] && !HasDrivePrefix(Portable(path)) && !StartsWith(Portable(path), [SLASH])
    ensures Written(path)
  {
    var p := Portable(path);
    SplitIsSlashFree(p);
    DenoteIsProper(Split(p));
    RenderJoinEmpty(Denote(Split(p)));
  }

  /** The code writes the normal form of what the path means. */
  lemma {:induction false} NormalizeWritesMeaning(path: Text)
    ensures ProperMeaning(Means(path)) && Normalize(path) == Write(Means(path))
  {
    if path != [] {
      if HasDrivePrefix(Portable(path)) {
        DriveWritten(path);
      } else if StartsWith(Portable(path), [SLASH, SLASH]) {
        ShareWritten(path);
      } else if StartsWith(Portable(path), [SLASH]) {
        RootWritten(path);
      } else {
        HereWritten(path);
      }
    }
  }

  lemma {:induction false} RenderJoinEmpty(d: Place)
    requires ProperPlace(d)
    ensures Join(Render(d)) == [] <==> Render(d) == []
    ensures Render(d) == [] <==> d == START
    ensures Join(Render(d)) != [] ==> Join(Render(d))[0] != SLASH
    ensures Join(Render(d)) != HERE
  {
    var cs := Render(d);
    assert forall i :: 0 <= i < |cs| ==> cs[i] != [] && cs[i] != HERE && SlashFree(cs[i]);
    JoinIsEmpty(cs);
    JoinHead(cs);
    if cs != [] { SplitJoin(cs); SplitOne(HERE); }
  }

  lemma {:induction false} JoinHead(cs: seq<Text>)
    requires forall i :: 0 <= i < |cs| ==> cs[i] != [] && SlashFree(cs[i])
    ensures Join(cs) != [] ==> Join(cs)[0] != SLASH
  {
    if cs != [] { assert Join(cs)[0] == cs[0][0]; }
  }

  lemma {:induction false} KeptJoin(cs: seq<Text>)
    requires forall i :: 0 <= i < |cs| ==> ProperAuthority(cs[i])
    ensures Kept(Split(Join(cs))) == cs
  {
    if cs == [] {
      var nothing: seq<Text> := [[]];
      assert Split([]) == nothing && nothing[..0] == [] && Kept(nothing) == Kept([]);
    } else {
      SplitJoin(cs);
      KeepsAll(cs);
    }
  }

  /** Components of an authority and a place read back, so a UNC tail never pops server or share. */
  lemma {:induction false} ShareReads(authority: seq<Text>, d: Place)
    requires ProperMeaning(FromShare(authority, d))
    ensures
      var cs := Kept(Split(Join(authority + Render(d))));
      && cs == authority + Render(d)
      && cs[..AuthorityLength(|cs|)] == authority && Denote(cs[AuthorityLength(|cs|)..]) == d
  {
    var cs, n := authority + Render(d), |authority|;
    forall i | 0 <= i < |cs| ensures ProperAuthority(cs[i]) {
      if n + d.ups <= i { assert ProperName(d.names[i - n - d.ups]); }
    }
    KeptJoin(cs);
    DenoteRender(d);
    assert n < 2 ==> Render(d) == [];
    assert cs[..n] == authority && cs[n..] == Render(d);
  }

  lemma {:induction false} KeepsAll(cs: seq<Text>)
    requires forall i :: 0 <= i < |cs| ==> ProperAuthority(cs[i])
    ensures Kept(cs) == cs
  {
    if cs != [] {
      KeepsAll(cs[..|cs| - 1]);
      assert cs == cs[..|cs| - 1] + [cs[|cs| - 1]];
    }
  }

  lemma {:induction false} JoinRenderInjective(d: Place, e: Place)
    requires ProperPlace(d) && ProperPlace(e) && Join(Render(d)) == Join(Render(e))
    ensures d == e
  {
    DenoteRender(d);
    DenoteRender(e);
  }

  lemma {:induction false} HereInjective(d: Place, e: Place)
    requires ProperPlace(d) && ProperPlace(e) && Write(FromHere(d)) == Write(FromHere(e))
    ensures d == e
  {
    RenderJoinEmpty(d);
    RenderJoinEmpty(e);
    if Render(d) != [] { JoinRenderInjective(d, e); }
  }

  lemma {:induction false} RootInjective(d: Place, e: Place)
    requires ProperPlace(d) && ProperPlace(e) && Write(FromRoot(d)) == Write(FromRoot(e))
    ensures d == e
  {
    assert Write(FromRoot(d)).value[1..] == Join(Render(d)) && Write(FromRoot(e)).value[1..] == Join(Render(e));
    JoinRenderInjective(d, e);
  }

  lemma {:induction false} ShareInjective(a: seq<Text>, d: Place, b: seq<Text>, e: Place)
    requires ProperMeaning(FromShare(a, d)) && ProperMeaning(FromShare(b, e))
    requires Write(FromShare(a, d)) == Write(FromShare(b, e))
    ensures a == b && d == e
  {
    assert Write(FromShare(a, d)).value[2..] == Join(a + Render(d));
    assert Write(FromShare(b, e)).value[2..] == Join(b + Render(e));
    ShareReads(a, d);
    ShareReads(b, e);
  }

  lemma {:induction false} DriveInjective(x: Text, d: Place, y: Text, e: Place, rooted: bool)
    requires |x| == |y| == 2 && ProperPlace(d) && ProperPlace(e)
    requires Write(FromDrive(x, rooted, d)) == Write(FromDrive(y, rooted, e))
    ensures x == y && d == e
  {
    var v, w, n := Write(FromDrive(x, rooted, d)).value, Write(FromDrive(y, rooted, e)).value, if rooted then 3 else 2;
    assert v[..2] == x && w[..2] == y;
    assert v[n..] == Join(Render(d)) && w[n..] == Join(Render(e));
    JoinRenderInjective(d, e);
  }

  /** The namespace tells the anchors apart. */
  lemma {:induction false} SameAnchor(m: Meaning, k: Meaning)
    requires Write(m).namespace == Write(k).namespace
    ensures (m.Nothing? <==> k.Nothing?) && (m.FromRoot? <==> k.FromRoot?) && (m.FromShare? <==> k.FromShare?)
    ensures (m.FromDrive? <==> k.FromDrive?) && (m.FromDrive? ==> m.rooted == k.rooted)
  {
  }

  /** Different meanings have different normal forms. */
  lemma {:induction false} WriteInjective(m: Meaning, k: Meaning)
    requires ProperMeaning(m) && ProperMeaning(k) && Write(m) == Write(k)
    ensures m == k
  {
    SameAnchor(m, k);
    match m {
      case Nothing =>
      case FromHere(d) => HereInjective(d, k.place);
      case FromRoot(d) => RootInjective(d, k.place);
      case FromShare(a, d) => ShareInjective(a, d, k.authority, k.place);
      case FromDrive(drive, rooted, d) => DriveInjective(drive, d, k.drive, k.place, rooted);
    }
  }

  /** Normalisation is canonical on (namespace, value) pairs: two paths agree exactly when they mean
      the same. */
  lemma {:induction false} NormalizeCanonical(p: Text, q: Text)
    ensures Normalize(p) == Normalize(q) <==> Means(p) == Means(q)
  {
    NormalizeWritesMeaning(p);
    NormalizeWritesMeaning(q);
    if Normalize(p) == Normalize(q) { WriteInjective(Means(p), Means(q)); }
  }

  // ---------------------------------------------------------------- reading a normal form again

  predicate Clean(t: Text) { BACKSLASH !in t }

  lemma {:induction false} SplitIsClean(p: Text)
    requires Clean(p)
    ensures forall i :: 0 <= i < |Split(p)| ==> Clean(Split(p)[i])
  {
    if p != [] { SplitIsClean(p[1..]); }
  }

  lemma {:induction false} DenoteIsClean(cs: seq<Text>)
    requires forall i :: 0 <= i < |cs| ==> Clean(cs[i])
    ensures forall i :: 0 <= i < |Denote(cs).names| ==> Clean(Denote(cs).names[i])
    ensures forall i :: 0 <= i < |Kept(cs)| ==> Clean(Kept(cs)[i])
  {
    if cs != [] { DenoteIsClean(cs[..|cs| - 1]); }
  }

  lemma {:induction false} JoinIsClean(cs: seq<Text>)
    requires forall i :: 0 <= i < |cs| ==> Clean(cs[i])
    ensures Clean(Join(cs))
  {
    if |cs| > 1 { JoinIsClean(cs[1..]); }
  }

  lemma {:induction false} NormalFormIsClean(path: Text)
    ensures Clean(Write(Means(path)).value)
  {
    var p := Portable(path);
    if path == [] {
    } else if HasDrivePrefix(p) {
      SplitIsClean(p[2..]);
      DenoteIsClean(Split(p[2..]));
      JoinIsClean(Render(Denote(Split(p[2..]))));
    } else {
      SplitIsClean(p);
      DenoteIsClean(Split(p));
      JoinIsClean(Render(Denote(Split(p))));
      var cs := Kept(Split(p));
      var n := AuthorityLength(|cs|);
      DenoteIsClean(cs[n..]);
      JoinIsClean(cs[..n] + Render(Denote(cs[n..])));
    }
  }

  lemma {:induction false} PortableClean(t: Text)
    requires Clean(t)
    ensures Portable(t) == t
  {
    assert forall i :: 0 <= i < |t| ==> t[i] in t;
  }

  /** A normal form reads back as the meaning it was written for, unless it is a relative path whose
      first name looks like a drive. */
  lemma {:induction false} WriteReads(m: Meaning)
    requires ProperMeaning(m) && Clean(Write(m).value)
    ensures Means(Write(m).value) == m <==> !(m.FromHere? && HasDrivePrefix(Write(m).value))
  {
    match m {
      case Nothing =>
      case FromHere(d) => HereRereads(d);
      case FromRoot(d) => RootRereads(d);
      case FromShare(a, d) => ShareRereads(a, d);
      case FromDrive(drive, rooted, d) => DriveRereads(drive, rooted, d);
    }
  }

  lemma {:induction false} HereRereads(d: Place)
    requires ProperPlace(d) && Clean(Write(FromHere(d)).value)
    ensures
      var v := Write(FromHere(d)).value;
      Means(v) == FromHere(d) <==> !HasDrivePrefix(v)
  {
    var v := Write(FromHere(d)).value;
    PortableClean(v);
    RenderJoinEmpty(d);
    DenoteRender(d);
    SplitOne(HERE);
    assert [HERE][..0] == [] && Denote([HERE]) == Move(Denote([]), HERE);
  }

  lemma {:induction false} RootRereads(d: Place)
    requires ProperPlace(d) && Clean(Write(FromRoot(d)).value)
    ensures Means(Write(FromRoot(d)).value) == FromRoot(d)
  {
    var v := Write(FromRoot(d)).value;
    PortableClean(v);
    RenderJoinEmpty(d);
    DenoteRender(d);
    assert Denote(Split(v)) == d by { RootReads(v, Join(Render(d))); }
    assert v[0] == SLASH && !HasDrivePrefix(v);
    assert StartsWith(v, [SLASH]) && !StartsWith(v, [SLASH, SLASH]) by {
      assert |v| > 1 ==> v[1] == Join(Render(d))[0];
    }
  }

  lemma {:induction false} DriveRereads(drive: Text, rooted: bool, d: Place)
    requires ProperMeaning(FromDrive(drive, rooted, d)) && Clean(Write(FromDrive(drive, rooted, d)).value)
    ensures Means(Write(FromDrive(drive, rooted, d)).value) == FromDrive(drive, rooted, d)
  {
    RenderJoinEmpty(d);
    DenoteRender(d);
    if rooted { RootedDriveReads(drive, Join(Render(d))); } else { DriveReads(drive + Join(Render(d)), drive, Join(Render(d))); }
  }

  lemma {:induction false} RootedDriveReads(drive: Text, t: Text)
    requires |drive| == 2 && HasDrivePrefix(drive) && Clean(drive + [SLASH] + t) && (t != [] ==> t[0] != SLASH)
    ensures Means(drive + [SLASH] + t) == FromDrive(drive, true, Denote(Split(t)))
  {
    assert drive + [SLASH] + t == drive + ([SLASH] + t);
    DriveReads(drive + [SLASH] + t, drive, [SLASH] + t);
    RootReads([SLASH] + t, t);
  }

  lemma {:induction false} DriveReads(v: Text, drive: Text, t: Text)
    requires |drive| == 2 && HasDrivePrefix(drive) && Clean(v) && v == drive + t
    ensures Means(v) == FromDrive(drive, StartsWith(t, [SLASH]), Denote(Split(t)))
  {
    PortableClean(v);
    assert v[0] == drive[0] && v[1] == drive[1];
    assert v[..2] == drive && v[2..] == t;
  }

  lemma {:induction false} RootReads(v: Text, t: Text)
    requires v == [SLASH] + t && (t != [] ==> t[0] != SLASH)
    ensures Denote(Split(v)) == Denote(Split(t)) && Kept(Split(v)) == Kept(Split(t))
  {
    assert v[1..] == t;
    TrimIsSilent(v);
    TrimIsSilent(t);
  }

  lemma {:induction false} ShareRereads(a: seq<Text>, d: Place)
    requires ProperMeaning(FromShare(a, d)) && Clean(Write(FromShare(a, d)).value)
    ensures Means(Write(FromShare(a, d)).value) == FromShare(a, d)
  {
    var t := Join(a + Render(d));
    var v := [SLASH, SLASH] + t;
    PortableClean(v);
    assert v[1..][1..] == t && v[1..][0] == SLASH;
    TrimIsSilent(v);
    TrimIsSilent(v[1..]);
    TrimIsSilent(t);
    assert TrimStart(v) == TrimStart(v[1..]) == TrimStart(t);
    ShareReads(a, d);
  }

  /** A path and its spelling with slashes normalise equally. */
  lemma {:induction false} SlashesSpellTheSame(p: Text)
    ensures Normalize(Portable(p)) == Normalize(p) && Means(Portable(p)) == Means(p)
  {
    assert Clean(Portable(p));
    PortableClean(Portable(p));
  }

  /** Normalising a value again changes nothing, exactly when the path is not a relative one whose
      normal form begins like a drive. */
  lemma {:induction false} NormalizeAgain(p: Text)
    ensures Normalize(Normalize(p).value) == Normalize(p) <==>
            !(Normalize(p).namespace == Relative && HasDrivePrefix(Normalize(p).value))
  {
    NormalizeWritesMeaning(p);
    NormalFormIsClean(p);
    WriteReads(Means(p));
    NormalizeCanonical(Normalize(p).value, p);
    assert !HasDrivePrefix(HERE);
  }

  /** The exception is real: "./C:y" is relative, and its value "C:y" reads as a drive. */
  lemma {:induction false} DriveLookalike(name: Text)
    requires ProperName(name) && Clean(name) && HasDrivePrefix(name)
    ensures Normalize([DOT, SLASH] + name) == NormalizedPath(Relative, name)
    ensures Normalize(name).namespace in {DriveRelative, DriveRooted}
  {
    var p := [DOT, SLASH] + name;
    PortableClean(p);
    PortableClean(name);
    assert p == HERE + [SLASH] + name;
    SplitOne(name);
    SplitAfter(HERE, name);
    var cs := [HERE, name];
    assert cs[..1] == [HERE] && [HERE][..0] == [];
    assert Denote([HERE]) == START && Denote(cs) == Place(0, [name]);
    assert Render(Place(0, [name])) == [name];
  }
}
