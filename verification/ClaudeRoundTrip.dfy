/**
 Many hooks added and removed again: their fences come and go, and the lines outside the fences change
 only by the keys that were missing.
 */
module ClaudeRoundTrip {
  import opened TextLines
  import opened Chars
  import opened Fencing
  import opened YamlFence
  import opened YamlPieces
  import opened ClaudeDeploy

  // ---- the lines outside every fence ----

  function Bare(ps: seq<Piece>): seq<string> {
    if ps == [] then [] else (if ps[0].Fenced? then [] else PieceLines(ps[0])) + Bare(ps[1..])
  }

  lemma {:induction false} BareConcat(a: seq<Piece>, b: seq<Piece>)
    ensures Bare(a + b) == Bare(a) + Bare(b)
    decreases a
  {
    hide PieceLines;
    if a == [] {
      assert a + b == b;
    } else {
      BareConcat(a[1..], b);
      assert (a + b)[0] == a[0] && (a + b)[1..] == a[1..] + b;
      Associate(if a[0].Fenced? then [] else PieceLines(a[0]), Bare(a[1..]), Bare(b));
    }
  }

  lemma BareOne(p: Piece)
    ensures Bare([p]) == if p.Fenced? then [] else PieceLines(p)
  {
    hide PieceLines;
    assert [p][1..] == [];
  }

  lemma {:induction false} BareInFlat(ps: seq<Piece>)
    ensures forall l :: l in Bare(ps) ==> l in Flat(ps)
    decreases ps
  {
    hide PieceLines;
    if ps != [] { BareInFlat(ps[1..]); }
  }

  lemma {:induction false} PieceInBare(ps: seq<Piece>, p: Piece)
    requires p in ps && !p.Fenced?
    ensures PieceLines(p)[0] in Bare(ps)
    decreases ps
  {
    hide PieceLines;
    if p != ps[0] { PieceInBare(ps[1..], p); }
  }

  /** Without fences nothing else is there. */
  lemma {:induction false} BareIsFlat(ps: seq<Piece>)
    requires forall p :: p in ps ==> !p.Fenced?
    ensures Bare(ps) == Flat(ps)
    decreases ps
  {
    hide PieceLines;
    if ps != [] {
      assert ps[0] in ps;
      BareIsFlat(ps[1..]);
    }
  }

  /** The units that have a fence. */
  ghost function UnitsIn(ps: seq<Piece>): set<string> {
    set p | p in ps && p.Fenced? :: p.unit
  }

  /** Key lines are never inside a fence. */
  lemma KeyInBare(ps: seq<Piece>, units: set<string>, verbs: set<string>, key: string)
    requires NamesOk(units, verbs) && PiecesOk(ps, units, verbs)
    requires key == HOOKS || exists v :: v in verbs && key == VerbKey(v)
    ensures FindKey(Flat(ps), key, 0) < |Flat(ps)| <==> FindKey(Bare(ps), key, 0) < |Bare(ps)|
  {
    hide Flat, Bare, PieceLines, NamesOk, PiecesOk, VerbKey;
    BareInFlat(ps);
    var x, y := FindKey(Flat(ps), key, 0), FindKey(Bare(ps), key, 0);
    if x < |Flat(ps)| {
      var k := KeyPiece(ps, units, verbs, x);
      PieceInBare(ps, ps[k]);
      assert Flat(ps)[x] in Bare(ps);
    } else if y < |Bare(ps)| {
      assert Bare(ps)[y] in Bare(ps);
    }
  }

  // ---- the keys an add puts in ----

  /** The lines with the key of `verb`, which is put in where `add` would if it is missing. */
  function Keyed(ls: seq<string>, verb: string): seq<string> {
    Before(ls, verb) + After(ls, verb)
  }

  lemma KeyedThere(ls: seq<string>, verb: string)
    requires FindKey(ls, VerbKey(verb), 0) < |ls|
    ensures Keyed(ls, verb) == ls
  {
    hide InsertAt, FindKey, VerbKey, TrimEnd;
    Halves(ls, InsertAt(ls, FindKey(ls, VerbKey(verb), 0)));
  }

  lemma KeyedUnderHooks(ls: seq<string>, verb: string, hi: nat, key: string)
    requires key == VerbKey(verb) && FindKey(ls, key, 0) == |ls| && FindKey(ls, HOOKS, 0) == hi < |ls|
    ensures Keyed(ls, verb) == ls[..hi + 1] + [key] + ls[hi + 1..]
  {
    hide Before, After, FindKey, VerbKey, TrimEnd;
    SidesUnderHooks(ls, verb, hi, key);
  }

  lemma SidesUnderHooks(ls: seq<string>, verb: string, hi: nat, key: string)
    requires key == VerbKey(verb) && FindKey(ls, key, 0) == |ls| && FindKey(ls, HOOKS, 0) == hi < |ls|
    ensures Before(ls, verb) == ls[..hi + 1] + [key] && After(ls, verb) == ls[hi + 1..]
  {
    hide InsertAt, FindKey, VerbKey, TrimEnd;
  }

  lemma KeyedAtEnd(ls: seq<string>, verb: string)
    requires FindKey(ls, VerbKey(verb), 0) == |ls| && FindKey(ls, HOOKS, 0) == |ls|
    ensures Keyed(ls, verb) == (if ls == [] then [[]] else ls) + [HOOKS, VerbKey(verb)]
  {
    hide InsertAt, FindKey, VerbKey, TrimEnd;
    NothingAfter(Before(ls, verb));
  }

  lemma NothingAfter(ls: seq<string>)
    ensures ls + [] == ls
  {
  }

  lemma Halves(ls: seq<string>, at: nat)
    requires at <= |ls|
    ensures ls[..at] + ls[at..] == ls
  {
  }

  /** The lines a file has left once the hooks of all these verbs were added and their fences cut out. */
  function KeyedAll(ls: seq<string>, verbs: seq<string>): seq<string>
    decreases verbs
  {
    if verbs == [] then ls else KeyedAll(Keyed(ls, verbs[0]), verbs[1..])
  }

  /** An added hook is one new fence, and its key where that was missing. */
  lemma AddedBare(ps: seq<Piece>, units: set<string>, verbs: set<string>, verb: string, f: Piece)
    returns (j: nat, mid: seq<Piece>)
    requires NamesOk(units, verbs) && PiecesOk(ps, units, verbs) && verb in verbs && f.Fenced?
    requires Bare(ps) == [] ==> ps == []
    ensures j <= |ps| && NewPieces(mid, verb, f)
    ensures var ps' := ps[..j] + mid + ps[j..];
      Flat(ps') == AddedLines(Flat(ps), verb, PieceLines(f)) && Bare(ps') == Keyed(Bare(ps), verb)
  {
    hide *;
    if FindKey(Flat(ps), VerbKey(verb), 0) < |Flat(ps)| {
      j, mid := AddedUnderKey(ps, units, verbs, verb, f);
    } else if FindKey(Flat(ps), HOOKS, 0) < |Flat(ps)| {
      j, mid := AddedUnderHooks(ps, units, verbs, verb, f);
    } else {
      j, mid := AddedAtEnd(ps, units, verbs, verb, f);
    }
  }

  lemma AddedUnderKey(ps: seq<Piece>, units: set<string>, verbs: set<string>, verb: string, f: Piece)
    returns (j: nat, mid: seq<Piece>)
    requires NamesOk(units, verbs) && PiecesOk(ps, units, verbs) && verb in verbs && f.Fenced?
    requires FindKey(Flat(ps), VerbKey(verb), 0) < |Flat(ps)|
    ensures j <= |ps| && NewPieces(mid, verb, f)
    ensures var ps' := ps[..j] + mid + ps[j..];
      Flat(ps') == AddedLines(Flat(ps), verb, PieceLines(f)) && Bare(ps') == Keyed(Bare(ps), verb)
  {
    hide Flat, Bare, InsertAt, PieceLines, NamesOk, PiecesOk, VerbKey, AddedLines, Keyed, FindKey;
    KeyInBare(ps, units, verbs, VerbKey(verb));
    KeyedThere(Bare(ps), verb);
    j := InsertBoundary(ps, units, verbs, FindKey(Flat(ps), VerbKey(verb), 0));
    mid := [f];
    UnderKey(Flat(ps), verb, f);
    FlatInserted(ps, j, mid);
    BareInserted(ps, j, mid);
    BareOne(f);
  }

  lemma AddedUnderHooks(ps: seq<Piece>, units: set<string>, verbs: set<string>, verb: string, f: Piece)
    returns (j: nat, mid: seq<Piece>)
    requires NamesOk(units, verbs) && PiecesOk(ps, units, verbs) && verb in verbs && f.Fenced?
    requires FindKey(Flat(ps), VerbKey(verb), 0) == |Flat(ps)| && FindKey(Flat(ps), HOOKS, 0) < |Flat(ps)|
    ensures j <= |ps| && NewPieces(mid, verb, f)
    ensures var ps' := ps[..j] + mid + ps[j..];
      Flat(ps') == AddedLines(Flat(ps), verb, PieceLines(f)) && Bare(ps') == Keyed(Bare(ps), verb)
  {
    hide Flat, Bare, PieceLines, NamesOk, PiecesOk, VerbKey, AddedLines, Keyed, FindKey;
    KeyInBare(ps, units, verbs, VerbKey(verb));
    KeyInBare(ps, units, verbs, HOOKS);
    KeyedUnderHooks(Bare(ps), verb, FindKey(Bare(ps), HOOKS, 0), VerbKey(verb));
    var k := KeyPiece(ps, units, verbs, FindKey(Flat(ps), HOOKS, 0));
    j := k + 1;
    mid := [SynthKey(verb), f];
    OnePieceOn(ps, k);
    UnderHooks(Flat(ps), verb, f);
    BareHooks(ps, k);
    FlatInserted(ps, j, mid);
    BareInserted(ps, j, mid);
    BareOfNew(verb, f);
  }

  lemma AddedAtEnd(ps: seq<Piece>, units: set<string>, verbs: set<string>, verb: string, f: Piece)
    returns (j: nat, mid: seq<Piece>)
    requires NamesOk(units, verbs) && PiecesOk(ps, units, verbs) && verb in verbs && f.Fenced?
    requires Bare(ps) == [] ==> ps == []
    requires FindKey(Flat(ps), VerbKey(verb), 0) == |Flat(ps)| && FindKey(Flat(ps), HOOKS, 0) == |Flat(ps)|
    ensures j <= |ps| && NewPieces(mid, verb, f)
    ensures var ps' := ps[..j] + mid + ps[j..];
      Flat(ps') == AddedLines(Flat(ps), verb, PieceLines(f)) && Bare(ps') == Keyed(Bare(ps), verb)
  {
    hide Flat, Bare, PieceLines, NamesOk, PiecesOk, VerbKey, AddedLines, Keyed, FindKey;
    var ls := Flat(ps);
    KeyInBare(ps, units, verbs, VerbKey(verb));
    KeyInBare(ps, units, verbs, HOOKS);
    KeyedAtEnd(Bare(ps), verb);
    j := |ps|;
    mid := if ls == [] then [Plain([]), Plain(HOOKS), SynthKey(verb), f] else [Plain(HOOKS), SynthKey(verb), f];
    assert ps[..|ps|] == ps;
    AtTheEnd(ls, mid, verb, f);
    BareEmpty(ps);
    FlatInserted(ps, j, mid);
    BareInserted(ps, j, mid);
    BareOfNew(verb, f);
    BareAtEnd(ps, mid);
  }

  lemma BareEmpty(ps: seq<Piece>)
    requires Bare(ps) == [] ==> ps == []
    ensures Flat(ps) == [] <==> Bare(ps) == []
  {
    BareInFlat(ps);
    assert ps == [] ==> Flat(ps) == [];
    if Bare(ps) != [] { assert Bare(ps)[0] in Flat(ps); }
  }

  lemma BareAtEnd(ps: seq<Piece>, mid: seq<Piece>)
    ensures Bare(ps[..|ps|]) + Bare(mid) + Bare(ps[|ps|..]) == Bare(ps) + Bare(mid)
  {
    assert ps[..|ps|] == ps && ps[|ps|..] == [] && Bare([]) == [];
  }

  lemma BareInserted(ps: seq<Piece>, j: nat, mid: seq<Piece>)
    requires j <= |ps|
    ensures Bare(ps[..j] + mid + ps[j..]) == Bare(ps[..j]) + Bare(mid) + Bare(ps[j..])
    ensures Bare(ps) == Bare(ps[..j]) + Bare(ps[j..])
    ensures Bare(mid) == [] ==> Bare(ps[..j] + mid + ps[j..]) == Bare(ps)
  {
    hide Bare;
    BareConcat(ps[..j] + mid, ps[j..]);
    BareConcat(ps[..j], mid);
    BareConcat(ps[..j], ps[j..]);
    assert ps == ps[..j] + ps[j..];
    assert Bare(ps[..j]) + [] == Bare(ps[..j]);
  }

  lemma BareOfNew(verb: string, f: Piece)
    requires f.Fenced?
    ensures Bare([f]) == [] && Bare([SynthKey(verb), f]) == [VerbKey(verb)]
    ensures Bare([Plain(HOOKS), SynthKey(verb), f]) == [HOOKS, VerbKey(verb)]
    ensures Bare([Plain([]), Plain(HOOKS), SynthKey(verb), f]) == [[], HOOKS, VerbKey(verb)]
  {
    hide VerbKey;
    BareOne(f);
    assert [SynthKey(verb), f][1..] == [f];
    assert [Plain(HOOKS), SynthKey(verb), f][1..] == [SynthKey(verb), f];
    assert [Plain([]), Plain(HOOKS), SynthKey(verb), f][1..] == [Plain(HOOKS), SynthKey(verb), f];
  }

  /** The first `hooks:` line of the file is the first one outside the fences. */
  lemma BareHooks(ps: seq<Piece>, k: nat)
    requires k < |ps| && !ps[k].Fenced? && |PieceLines(ps[k])| == 1
    requires |Flat(ps[..k])| == FindKey(Flat(ps), HOOKS, 0) < |Flat(ps)|
    ensures var hi := FindKey(Bare(ps), HOOKS, 0);
      hi < |Bare(ps)| && Bare(ps[..k + 1]) == Bare(ps)[..hi + 1] && Bare(ps[k + 1..]) == Bare(ps)[hi + 1..]
  {
    hide Flat, Bare, PieceLines;
    var a, b, h := Bare(ps[..k]), Bare(ps[k + 1..]), PieceLines(ps[k])[0];
    FlatHead(ps, k);
    FlatSplit(ps, k);
    BareInFlat(ps[..k]);
    assert ps[..k + 1] == ps[..k] + [ps[k]] && ps == ps[..k + 1] + ps[k + 1..];
    BareConcat(ps[..k], [ps[k]]);
    BareConcat(ps[..k + 1], ps[k + 1..]);
    BareOne(ps[k]);
    assert PieceLines(ps[k]) == [h];
    forall i | 0 <= i < |a| ensures TrimEnd(Bare(ps)[i]) != HOOKS {
      assert Bare(ps)[i] == a[i] && a[i] in a;
    }
    assert Bare(ps)[|a|] == h;
  }

  // ---- one hook added ----

  lemma HookLineStart(l: string)
    requires HookLine(l)
    ensures |l| >= 4 && l[0] == ' ' && (l[2] == '-' || l[2] == ' ')
  {
    if "  - " <= l { assert l[2] == "  - "[2] && l[0] == "  - "[0]; }
    if "    " <= l { assert l[2] == "    "[2] && l[0] == "    "[0]; }
  }

  lemma TrimmedStart(l: string, k: nat)
    ensures k < |TrimEnd(l)| ==> k < |l| && TrimEnd(l)[k] == l[k]
  {
  }

  lemma HookLineFacts(l: string, units: set<string>, verbs: set<string>)
    requires HookLine(l) && NamesOk(units, verbs)
    ensures !IsMarker(l, units) && !IsKeyLine(l, verbs)
  {
    hide UnitOk, HookLine, TrimEnd;
    HookLineStart(l);
    TrimmedStart(l, 0);
    TrimmedStart(l, 2);
    forall u ensures !IsBegin(Yaml, l, u) && !IsEnd(Yaml, l, u) {
      TrimmedMarkers(u);
      assert TrimEnd(BeginMarker(Yaml, u))[2] == "  # >>>"[2] && TrimEnd(EndMarker(Yaml, u))[2] == "  # <<<"[2];
    }
    forall v | v in verbs ensures TrimEnd(l) != VerbKey(v) {
      assert VerbKey(v)[2] == v[0];
    }
    assert HOOKS[0] == 'h';
  }

  lemma HookBodyOk(entry: string, units: set<string>, verbs: set<string>)
    requires HookEntry(entry) && NamesOk(units, verbs)
    ensures BodyOk(BodyLines(entry), units, verbs)
  {
    hide NamesOk, HookLine, IsMarker, IsKeyLine, BodyLines;
    BodyText(entry);
    forall l | l in BodyLines(entry) ensures !IsMarker(l, units) && !IsKeyLine(l, verbs) {
      HookLineFacts(l, units, verbs);
    }
  }

  datatype Hook = Hook(unit: string, verb: string, entry: string)

  ghost predicate HookOk(hook: Hook, units: set<string>, verbs: set<string>) {
    hook.unit in units && hook.verb in verbs && HookEntry(hook.entry)
  }

  /** A text that is these pieces; a file with nothing outside its fences is empty. */
  ghost predicate Shows(content: string, ps: seq<Piece>, newline: bool, units: set<string>, verbs: set<string>) {
    && Lines(content) == Flat(ps) && EndsInNewline(content) == newline && PiecesOk(ps, units, verbs)
    && (Bare(ps) == [] ==> ps == [])
  }

  lemma InstallStep(content: string, ps: seq<Piece>, hook: Hook, newline: bool, units: set<string>, verbs: set<string>)
    returns (ps': seq<Piece>)
    requires NamesOk(units, verbs) && Shows(content, ps, newline, units, verbs)
    requires HookOk(hook, units, verbs) && hook.unit !in UnitsIn(ps)
    ensures Shows(AddText(content, hook.unit, hook.verb, hook.entry), ps', newline, units, verbs)
    ensures Bare(ps') == Keyed(Bare(ps), hook.verb) && UnitsIn(ps') == UnitsIn(ps) + {hook.unit}
  {
    hide Flat, Bare, Lines, NamesOk, PiecesOk, AddText, FenceLines, BodyLines, BodyOk, HookEntry, Has, Keyed, NewPieces, UnitsIn;
    var f := Fenced(hook.unit, BodyLines(hook.entry));
    assert PieceLines(f) == FenceLines(hook.unit, hook.entry) by { FenceAsPiece(hook.unit, hook.entry); }
    HookBodyOk(hook.entry, units, verbs);
    NewFenceOk(f, units, verbs);
    NotYet(ps, units, verbs, hook.unit);
    NamesAreSingle(hook.unit, hook.verb, units, verbs);
    LinesOfAdded(content, hook.unit, hook.verb, hook.entry);
    var j, mid := AddedBare(ps, units, verbs, hook.verb, f);
    ps' := ps[..j] + mid + ps[j..];
    NewPiecesOk(mid, hook.verb, f, units, verbs);
    InsertedUnits(ps, j, mid, f, hook.verb);
    InsertedOk(ps, j, mid, units, verbs, f.unit);
    KeyedNotEmpty(Bare(ps), hook.verb);
  }

  lemma KeyedNotEmpty(ls: seq<string>, verb: string)
    ensures NonBlank(Keyed(ls, verb)) != [] && Keyed(ls, verb) != []
  {
    hide Keyed, FindKey, VerbKey;
    VerbKeyIsLine(verb);
    var vi := FindKey(ls, VerbKey(verb), 0);
    if vi < |ls| {
      KeyedThere(ls, verb);
      NonBlankHas(ls, ls[vi]);
    } else {
      KeyedHasKey(ls, verb);
      NonBlankHas(Keyed(ls, verb), VerbKey(verb));
    }
  }

  lemma KeyedHasKey(ls: seq<string>, verb: string)
    requires FindKey(ls, VerbKey(verb), 0) == |ls|
    ensures VerbKey(verb) in Keyed(ls, verb) && forall l :: l in ls ==> l in Keyed(ls, verb)
  {
    hide Keyed, FindKey, VerbKey, TrimEnd;
    var hi := FindKey(ls, HOOKS, 0);
    if hi < |ls| {
      KeyedUnderHooks(ls, verb, hi, VerbKey(verb));
      Halves(ls, hi + 1);
    } else {
      KeyedAtEnd(ls, verb);
    }
  }

  lemma {:induction false} NonBlankHas(ls: seq<string>, l: string)
    requires l in ls && l != []
    ensures l in NonBlank(ls)
    decreases ls
  {
    if l != ls[0] { NonBlankHas(ls[1..], l); }
  }

  lemma NamesAreSingle(unit: string, verb: string, units: set<string>, verbs: set<string>)
    requires NamesOk(units, verbs) && unit in units && verb in verbs
    ensures '\n' !in unit && '\n' !in verb
  {
  }

  lemma NotYet(ps: seq<Piece>, units: set<string>, verbs: set<string>, unit: string)
    requires NamesOk(units, verbs) && PiecesOk(ps, units, verbs) && unit in units
    ensures Has(Flat(ps), unit) <==> unit in UnitsIn(ps)
    ensures unit !in UnitsIn(ps) ==> forall p :: p in ps && p.Fenced? ==> p.unit != unit
  {
    hide Flat, NamesOk, PiecesOk, Has;
    HasPiece(ps, units, verbs, unit);
    assert forall k :: 0 <= k < |ps| ==> ps[k] in ps;
  }

  lemma InsertedUnits(ps: seq<Piece>, j: nat, mid: seq<Piece>, f: Piece, verb: string)
    requires j <= |ps| && f.Fenced? && NewPieces(mid, verb, f)
    ensures UnitsIn(ps[..j] + mid + ps[j..]) == UnitsIn(ps) + {f.unit}
    ensures forall p :: p in mid && p.Fenced? ==> p.unit == f.unit
  {
    var all := ps[..j] + mid + ps[j..];
    assert ps == ps[..j] + ps[j..];
    assert f in mid;
    assert forall p :: p in mid && p.Fenced? ==> p == f;
    assert forall p :: p in all <==> p in ps || p in mid;
  }

  // ---- one hook removed ----

  /** The lines of a text that had something removed are tidied. */
  ghost predicate ShowsTidied(content: string, ps: seq<Piece>, newline: bool, units: set<string>, verbs: set<string>) {
    && (Lines(content) == Flat(ps) || Lines(content) == Tidied(Flat(ps))) && EndsInNewline(content) == newline
    && PiecesOk(ps, units, verbs) && NonBlank(Bare(ps)) != []
  }

  /** Removing a unit takes out its fence and tidies; it leaves what is outside the fences. */
  lemma RemoveStep(content: string, ps: seq<Piece>, unit: string, newline: bool, units: set<string>, verbs: set<string>)
    returns (ps': seq<Piece>)
    requires NamesOk(units, verbs) && ShowsTidied(content, ps, newline, units, verbs) && unit in UnitsIn(ps)
    ensures var r := RemoveText(Yaml, content, unit);
      r.Ok? && ShowsTidied(r.text, ps', newline, units, verbs) && Lines(r.text) == Tidied(Flat(ps'))
    ensures Bare(ps') == Bare(ps) && UnitsIn(ps') == UnitsIn(ps) - {unit}
  {
    hide Flat, Bare, Lines, NamesOk, PiecesOk, Strip, Tidied, Rejoin, NonBlank;
    var p :| p in ps && p.Fenced? && p.unit == unit;
    var i :| 0 <= i < |ps| && ps[i] == p;
    ps' := ps[..i] + ps[i + 1..];
    StripPiece(ps, i, units, verbs);
    StripTidiedPiece(ps, i, units, verbs);
    FewerPiecesOk(ps, i, units, verbs);
    ShrunkBare(ps, i);
    ShrunkUnits(ps, i, units, verbs);
    AfterStrip(Yaml, content, unit);
    NotAllBlank(ps');
  }

  /** Cutting a fence out of tidied lines is cutting it out first. */
  lemma StripTidiedPiece(ps: seq<Piece>, k: nat, units: set<string>, verbs: set<string>)
    requires NamesOk(units, verbs) && PiecesOk(ps, units, verbs) && k < |ps| && ps[k].Fenced?
    ensures Strip(Yaml, Tidied(Flat(ps)), ps[k].unit) == Cut(Tidied(Flat(ps[..k] + ps[k + 1..])))
  {
    hide Flat, PieceLines, PieceOk, IsFence, Free, Strip, Tidied;
    var p := ps[k];
    assert p in ps;
    FlatParts(ps, k);
    PieceIsFence(p, units, verbs);
    FencedUnit(p, units, verbs);
    FlatFree(ps[..k], units, verbs, p.unit);
    StripTidied(Yaml, Flat(ps[..k]), PieceLines(p), Flat(ps[k + 1..]), p.unit);
  }

  lemma NotAllBlank(ps: seq<Piece>)
    requires NonBlank(Bare(ps)) != []
    ensures Tidied(Flat(ps)) != []
  {
    hide Flat, Bare, Tidied;
    var l := NonBlank(Bare(ps))[0];
    NonBlankOf(Bare(ps), l);
    BareInFlat(ps);
    NonBlankHas(Flat(ps), l);
    TidiedNonBlank(Flat(ps));
  }

  lemma {:induction false} NonBlankOf(ls: seq<string>, l: string)
    requires l in NonBlank(ls)
    ensures l in ls && l != []
    decreases ls
  {
    if ls != [] && !(ls[0] != [] && l == ls[0]) { NonBlankOf(ls[1..], l); }
  }

  lemma ShrunkBare(ps: seq<Piece>, i: nat)
    requires i < |ps| && ps[i].Fenced?
    ensures Bare(ps[..i] + ps[i + 1..]) == Bare(ps)
  {
    hide Bare;
    BareInserted(ps[..i] + ps[i + 1..], i, [ps[i]]);
    BareOne(ps[i]);
    var left := ps[..i] + ps[i + 1..];
    assert left[..i] + [ps[i]] + left[i..] == ps;
  }

  lemma ShrunkUnits(ps: seq<Piece>, i: nat, units: set<string>, verbs: set<string>)
    requires PiecesOk(ps, units, verbs) && i < |ps| && ps[i].Fenced?
    ensures UnitsIn(ps[..i] + ps[i + 1..]) == UnitsIn(ps) - {ps[i].unit}
  {
    hide PieceOk;
    var left := ps[..i] + ps[i + 1..];
    forall u ensures u in UnitsIn(left) <==> u in UnitsIn(ps) - {ps[i].unit} {
      if u in UnitsIn(left) {
        var x :| 0 <= x < |left| && left[x].Fenced? && left[x].unit == u;
        assert left[x] == ps[if x < i then x else x + 1] && left[x] in ps;
      }
      if u in UnitsIn(ps) && u != ps[i].unit {
        var y :| 0 <= y < |ps| && ps[y].Fenced? && ps[y].unit == u;
        assert left[if y < i then y else y - 1] == ps[y] && ps[y] in left;
      }
    }
  }

  // ---- any number of them ----

  function InstallAll(yml: string, hooks: seq<Hook>): string
    decreases hooks
  {
    if hooks == [] then yml
    else InstallAll(AddText(yml, hooks[0].unit, hooks[0].verb, hooks[0].entry), hooks[1..])
  }

  function RemoveAll(yml: string, units: seq<string>): FenceResult
    decreases units
  {
    if units == [] then Ok(yml)
    else
      var r := RemoveText(Yaml, yml, units[0]);
      if r.Ok? then RemoveAll(r.text, units[1..]) else r
  }

  function Verbs(hooks: seq<Hook>): (vs: seq<string>)
    ensures |vs| == |hooks| && forall i :: 0 <= i < |hooks| ==> vs[i] == hooks[i].verb
  {
    seq(|hooks|, i requires 0 <= i < |hooks| => hooks[i].verb)
  }

  ghost predicate HooksOk(hooks: seq<Hook>, units: set<string>, verbs: set<string>) {
    && (forall h :: h in hooks ==> HookOk(h, units, verbs))
    && (forall i, j :: 0 <= i < j < |hooks| ==> hooks[i].unit != hooks[j].unit)
  }

  ghost function UnitsOfHooks(hooks: seq<Hook>): set<string> {
    set h | h in hooks :: h.unit
  }

  lemma {:induction false} InstallShows(yml: string, ps: seq<Piece>, hooks: seq<Hook>, newline: bool,
                                        units: set<string>, verbs: set<string>) returns (ps': seq<Piece>)
    requires NamesOk(units, verbs) && Shows(yml, ps, newline, units, verbs)
    requires HooksOk(hooks, units, verbs) && UnitsOfHooks(hooks) !! UnitsIn(ps)
    ensures Shows(InstallAll(yml, hooks), ps', newline, units, verbs)
    ensures Bare(ps') == KeyedAll(Bare(ps), Verbs(hooks)) && UnitsIn(ps') == UnitsIn(ps) + UnitsOfHooks(hooks)
    decreases hooks
  {
    hide NamesOk, Shows, HookOk, AddText, UnitsIn, Bare, Keyed;
    ps' := ps;
    if hooks != [] {
      var h, rest := hooks[0], hooks[1..];
      assert h in hooks && h.unit in UnitsOfHooks(hooks);
      var next := InstallStep(yml, ps, h, newline, units, verbs);
      RestUnits(hooks);
      ps' := InstallShows(AddText(yml, h.unit, h.verb, h.entry), next, rest, newline, units, verbs);
      assert Verbs(hooks)[1..] == Verbs(rest);
    }
  }

  lemma RestUnits(hooks: seq<Hook>)
    requires hooks != [] && forall i, j :: 0 <= i < j < |hooks| ==> hooks[i].unit != hooks[j].unit
    ensures hooks[0].unit !in UnitsOfHooks(hooks[1..])
    ensures UnitsOfHooks(hooks) == UnitsOfHooks(hooks[1..]) + {hooks[0].unit}
  {
    forall h | h in hooks[1..] ensures h in hooks && h.unit != hooks[0].unit {
      var i :| 0 <= i < |hooks| - 1 && hooks[1..][i] == h;
      assert hooks[i + 1] == h;
    }
    assert forall h :: h in hooks <==> h == hooks[0] || h in hooks[1..];
  }

  /** Once all fences are gone, the tidied lines outside them are left. */
  lemma {:induction false} RemoveShows(yml: string, ps: seq<Piece>, us: seq<string>, newline: bool,
                                       units: set<string>, verbs: set<string>)
    requires NamesOk(units, verbs) && ShowsTidied(yml, ps, newline, units, verbs)
    requires UnitsIn(ps) <= (set u | u in us) <= units
    requires UnitsIn(ps) != {} || Lines(yml) == Tidied(Flat(ps))
    ensures var r := RemoveAll(yml, us);
      r.Ok? && Lines(r.text) == Tidied(Bare(ps)) && EndsInNewline(r.text) == newline
    decreases us
  {
    hide NamesOk, PiecesOk, RemoveText, UnitsIn, Bare, Flat, Lines, Tidied, NonBlank;
    if us == [] {
      NoFences(ps);
      BareIsFlat(ps);
    } else {
      assert us == [us[0]] + us[1..] && us[0] in us;
      if us[0] in UnitsIn(ps) {
        var next := RemoveStep(yml, ps, us[0], newline, units, verbs);
        RemoveShows(RemoveText(Yaml, yml, us[0]).text, next, us[1..], newline, units, verbs);
      } else {
        NothingThere(yml, ps, us[0], units, verbs);
        RemoveShows(yml, ps, us[1..], newline, units, verbs);
      }
    }
  }

  lemma NoFences(ps: seq<Piece>)
    requires UnitsIn(ps) == {}
    ensures forall p :: p in ps ==> !p.Fenced?
  {
    forall p | p in ps ensures !p.Fenced? {
      if p.Fenced? { InUnits(ps, p); }
    }
  }

  lemma InUnits(ps: seq<Piece>, p: Piece)
    requires p in ps && p.Fenced?
    ensures p.unit in UnitsIn(ps)
  {
  }

  lemma NothingThere(yml: string, ps: seq<Piece>, unit: string, units: set<string>, verbs: set<string>)
    requires NamesOk(units, verbs) && PiecesOk(ps, units, verbs) && unit in units && unit !in UnitsIn(ps)
    requires Lines(yml) == Flat(ps) || Lines(yml) == Tidied(Flat(ps))
    ensures RemoveText(Yaml, yml, unit) == Ok(yml)
  {
    hide Flat, NamesOk, PiecesOk, Has, Lines, Tidied, Strip;
    NotYet(ps, units, verbs, unit);
    AbsentTidied(Flat(ps), unit);
    AbsentStrip(Lines(yml), unit);
  }

  lemma AbsentTidied(ls: seq<string>, unit: string)
    requires !Has(ls, unit)
    ensures !Has(Tidied(ls), unit)
  {
    hide IsBegin;
    TidiedMembers(ls);
    assert Free(Yaml, ls, unit) by { AbsentIsFree(ls, unit); }
    var i := FindBegin(Yaml, Tidied(ls), unit, 0);
    assert i < |Tidied(ls)| ==> Tidied(ls)[i] in ls;
  }
}
