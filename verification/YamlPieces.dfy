/**
 A hook file as a sequence of pieces: its own lines, synthesised keys and whole fences. Adds only
 ever put new pieces between old ones, and removals take out whole fences.
 */
module YamlPieces {
  import opened TextLines
  import opened Chars
  import opened Fencing
  import opened YamlFence

  datatype Piece = Plain(line: string) | SynthKey(verb: string) | Fenced(unit: string, body: seq<string>)

  function PieceLines(p: Piece): (ls: seq<string>)
    ensures |ls| > 0
  {
    match p
    case Plain(l) => [l]
    case SynthKey(v) => [VerbKey(v)]
    case Fenced(u, body) => [BeginMarker(Yaml, u)] + body + [EndMarker(Yaml, u)]
  }

  function Flat(ps: seq<Piece>): seq<string> {
    if ps == [] then [] else PieceLines(ps[0]) + Flat(ps[1..])
  }

  // ---- the names in play ----

  predicate UnitOk(u: string) {
    u != [] && !IsSpace(u[|u| - 1]) && '\n' !in u
  }

  predicate VerbOk(v: string) {
    v != [] && v[0] != ' ' && v[0] != '-' && v[0] != '#' && '\n' !in v
  }

  ghost predicate NamesOk(units: set<string>, verbs: set<string>) {
    (forall u :: u in units ==> UnitOk(u)) && (forall v :: v in verbs ==> VerbOk(v))
  }

  ghost predicate IsMarker(l: string, units: set<string>) {
    exists u :: u in units && (IsBegin(Yaml, l, u) || IsEnd(Yaml, l, u))
  }

  predicate IsKeyLine(l: string, verbs: set<string>) {
    TrimEnd(l) == HOOKS || exists v :: v in verbs && TrimEnd(l) == VerbKey(v)
  }

  ghost predicate BodyOk(body: seq<string>, units: set<string>, verbs: set<string>) {
    SingleLines(body) && forall l :: l in body ==> !IsMarker(l, units) && !IsKeyLine(l, verbs)
  }

  ghost predicate PieceOk(p: Piece, units: set<string>, verbs: set<string>) {
    match p
    case Plain(l) => !IsMarker(l, units)
    case SynthKey(v) => v in verbs
    case Fenced(u, body) => u in units && BodyOk(body, units, verbs)
  }

  /** Fences are paired and disjoint, one per unit, and keys lie outside them. */
  ghost predicate PiecesOk(ps: seq<Piece>, units: set<string>, verbs: set<string>) {
    && (forall p :: p in ps ==> PieceOk(p, units, verbs))
    && (forall i, j :: 0 <= i < j < |ps| && ps[i].Fenced? && ps[j].Fenced? ==> ps[i].unit != ps[j].unit)
  }

  lemma MarkerFacts(u: string, v: string)
    requires UnitOk(u) && UnitOk(v)
    ensures IsBegin(Yaml, BeginMarker(Yaml, u), v) <==> u == v
    ensures !IsEnd(Yaml, BeginMarker(Yaml, u), v) && !IsBegin(Yaml, EndMarker(Yaml, u), v)
    ensures IsEnd(Yaml, EndMarker(Yaml, u), v) <==> u == v
    ensures !HookLine(BeginMarker(Yaml, u)) && BeginMarker(Yaml, u) != []
  {
    hide TrimEnd, BeginMarker, EndMarker, HookLine;
    ExactMarkers(u);
    ExactMarkers(v);
    MarkersDiffer(u, v);
    MarkersDiffer(v, u);
  }

  lemma ExactMarkers(u: string)
    requires UnitOk(u)
    ensures TrimEnd(BeginMarker(Yaml, u)) == BeginMarker(Yaml, u) && TrimEnd(EndMarker(Yaml, u)) == EndMarker(Yaml, u)
  {
    TrimEndFixed(BeginMarker(Yaml, u));
    TrimEndFixed(EndMarker(Yaml, u));
  }

  lemma MarkersDiffer(u: string, v: string)
    ensures BeginMarker(Yaml, u) == BeginMarker(Yaml, v) ==> u == v
    ensures EndMarker(Yaml, u) == EndMarker(Yaml, v) ==> u == v
    ensures BeginMarker(Yaml, u) != EndMarker(Yaml, v)
    ensures !HookLine(BeginMarker(Yaml, u)) && BeginMarker(Yaml, u) != []
  {
    var b, e := "  # >>> specere:begin ", "  # <<< specere:end ";
    assert BeginMarker(Yaml, u)[|b|..] == u && BeginMarker(Yaml, v)[|b|..] == v;
    assert EndMarker(Yaml, u)[|e|..] == u && EndMarker(Yaml, v)[|e|..] == v;
    assert BeginMarker(Yaml, u)[4] == '>' && EndMarker(Yaml, v)[4] == '<';
    assert BeginMarker(Yaml, u)[2] == '#';
  }

  lemma KeyFacts(v: string, u: string)
    requires VerbOk(v) && UnitOk(u)
    ensures TrimEnd(VerbKey(v)) == VerbKey(v) && VerbKey(v) != HOOKS
    ensures !HookLine(VerbKey(v)) && VerbKey(v) != []
    ensures !IsBegin(Yaml, VerbKey(v), u) && !IsEnd(Yaml, VerbKey(v), u)
    ensures TrimEnd(BeginMarker(Yaml, u)) != VerbKey(v) && TrimEnd(BeginMarker(Yaml, u)) != HOOKS
    ensures TrimEnd(EndMarker(Yaml, u)) != VerbKey(v) && TrimEnd(EndMarker(Yaml, u)) != HOOKS
  {
    TrimEndFixed(VerbKey(v));
    TrimmedMarkers(u);
    assert VerbKey(v)[2] == v[0] && HOOKS[0] == 'h';
    assert TrimEnd(BeginMarker(Yaml, u))[2] == '#' && TrimEnd(EndMarker(Yaml, u))[2] == '#';
  }

  // ---- lines and pieces ----

  lemma {:induction false} FlatConcat(a: seq<Piece>, b: seq<Piece>)
    ensures Flat(a + b) == Flat(a) + Flat(b)
    decreases a
  {
    hide PieceLines;
    if a == [] {
      assert a + b == b;
    } else {
      FlatConcat(a[1..], b);
      assert (a + b)[0] == a[0] && (a + b)[1..] == a[1..] + b;
      Associate(PieceLines(a[0]), Flat(a[1..]), Flat(b));
    }
  }

  lemma FlatOne(p: Piece)
    ensures Flat([p]) == PieceLines(p)
  {
    hide PieceLines;
    assert Flat([p][1..]) == [];
  }

  /** The piece a line belongs to, and its place in it. */
  lemma {:induction false} Locate(ps: seq<Piece>, x: nat) returns (k: nat, o: nat)
    requires x < |Flat(ps)|
    ensures k < |ps| && o < |PieceLines(ps[k])|
    ensures |Flat(ps[..k])| + o == x && Flat(ps)[x] == PieceLines(ps[k])[o]
    decreases ps
  {
    hide PieceLines;
    var first := PieceLines(ps[0]);
    if x < |first| {
      k, o := 0, x;
      assert ps[..0] == [];
    } else {
      k, o := Locate(ps[1..], x - |first|);
      k := k + 1;
      assert ps[..k][0] == ps[0] && ps[..k][1..] == ps[1..][..k - 1];
    }
  }

  lemma FlatSplit(ps: seq<Piece>, k: nat)
    requires k <= |ps|
    ensures Flat(ps) == Flat(ps[..k]) + Flat(ps[k..])
    ensures Flat(ps)[..|Flat(ps[..k])|] == Flat(ps[..k]) && Flat(ps)[|Flat(ps[..k])|..] == Flat(ps[k..])
  {
    assert ps == ps[..k] + ps[k..];
    FlatConcat(ps[..k], ps[k..]);
  }

  lemma FlatMonotone(ps: seq<Piece>, i: nat, k: nat)
    requires i < k <= |ps|
    ensures |Flat(ps[..i])| + |PieceLines(ps[i])| <= |Flat(ps[..k])|
  {
    hide PieceLines;
    assert ps[..k] == ps[..i] + ([ps[i]] + ps[i + 1..k]);
    FlatConcat(ps[..i], [ps[i]] + ps[i + 1..k]);
    FlatConcat([ps[i]], ps[i + 1..k]);
    FlatOne(ps[i]);
  }

  /** A key line is a piece of its own. */
  lemma KeyPiece(ps: seq<Piece>, units: set<string>, verbs: set<string>, x: nat) returns (k: nat)
    requires NamesOk(units, verbs) && PiecesOk(ps, units, verbs) && x < |Flat(ps)| && IsKeyLine(Flat(ps)[x], verbs)
    ensures k < |ps| && |Flat(ps[..k])| == x && !ps[k].Fenced? && |PieceLines(ps[k])| == 1
    ensures PieceLines(ps[k])[0] == Flat(ps)[x]
  {
    hide Flat, BeginMarker, EndMarker;
    var o;
    k, o := Locate(ps, x);
    assert PieceOk(ps[k], units, verbs);
    if ps[k].Fenced? {
      MarkersAreNoKeys(ps[k].unit, verbs);
      FencedLine(ps[k], o);
    }
  }

  lemma MarkersAreNoKeys(u: string, verbs: set<string>)
    requires UnitOk(u) && forall v :: v in verbs ==> VerbOk(v)
    ensures !IsKeyLine(BeginMarker(Yaml, u), verbs) && !IsKeyLine(EndMarker(Yaml, u), verbs)
  {
    hide BeginMarker, EndMarker, VerbKey, UnitOk, VerbOk;
    KeyFacts("v", u);
    forall v | v in verbs
      ensures TrimEnd(BeginMarker(Yaml, u)) != VerbKey(v) && TrimEnd(EndMarker(Yaml, u)) != VerbKey(v)
    {
      KeyFacts(v, u);
    }
  }

  lemma FencedLine(p: Piece, o: nat)
    requires p.Fenced? && o < |PieceLines(p)|
    ensures var l := PieceLines(p)[o]; l == BeginMarker(Yaml, p.unit) || l in p.body || l == EndMarker(Yaml, p.unit)
    ensures o == 0 <==> |PieceLines(p)[..o]| == 0
  {
    hide BeginMarker, EndMarker;
  }

  lemma BetweenIsList(ls: seq<string>, key: nat, x: nat)
    requires key < |ls| && key < x < InsertAt(ls, key)
    ensures HookLine(ls[x]) || ls[x] == []
  {
  }

  /** The place for a block is between two pieces. */
  lemma InsertBoundary(ps: seq<Piece>, units: set<string>, verbs: set<string>, key: nat) returns (j: nat)
    requires NamesOk(units, verbs) && PiecesOk(ps, units, verbs)
    requires key < |Flat(ps)| && IsKeyLine(Flat(ps)[key], verbs)
    ensures j <= |ps| && |Flat(ps[..j])| == InsertAt(Flat(ps), key)
  {
    hide Flat, InsertAt, PieceLines, HookLine, IsKeyLine;
    var at := InsertAt(Flat(ps), key);
    var i := KeyPiece(ps, units, verbs, key);
    if at == |Flat(ps)| {
      j := |ps|;
      assert ps[..j] == ps;
    } else {
      var k, o := Locate(ps, at);
      j := k;
      if o > 0 {
        NotInside(ps, units, verbs, key, i, k, o);
      }
    }
  }

  /** A fence cannot straddle the place: its begin line would be a hook line or blank. */
  lemma NotInside(ps: seq<Piece>, units: set<string>, verbs: set<string>, key: nat, i: nat, k: nat, o: nat)
    requires NamesOk(units, verbs) && PiecesOk(ps, units, verbs) && i < |ps| && k < |ps|
    requires key < |Flat(ps)| && |Flat(ps[..i])| == key && |PieceLines(ps[i])| == 1
    requires o < |PieceLines(ps[k])| && |Flat(ps[..k])| + o == InsertAt(Flat(ps), key)
    ensures o == 0
  {
    hide Flat, InsertAt, HookLine, BeginMarker, EndMarker;
    if o > 0 {
      assert PieceOk(ps[k], units, verbs) && ps[k].Fenced?;
      if k < i { FlatMonotone(ps, k, i); } else { FlatMonotone(ps, i, k); }
      FlatSplit(ps, k);
      FlatHead(ps, k);
      MarkerFacts(ps[k].unit, ps[k].unit);
      BetweenIsList(Flat(ps), key, |Flat(ps[..k])|);
    }
  }

  lemma FlatHead(ps: seq<Piece>, k: nat)
    requires k < |ps|
    ensures |Flat(ps)| > |Flat(ps[..k])| && Flat(ps)[|Flat(ps[..k])|] == PieceLines(ps[k])[0]
  {
    FlatSplit(ps, k);
  }

  // ---- an add inserts pieces ----

  /** The pieces an add puts in: a fence, with its key and even `hooks:` where they were missing. */
  ghost predicate NewPieces(mid: seq<Piece>, verb: string, f: Piece) {
    mid == [f] || mid == [SynthKey(verb), f] || mid == [Plain(HOOKS), SynthKey(verb), f]
    || mid == [Plain([]), Plain(HOOKS), SynthKey(verb), f]
  }

  lemma NewPiecesOk(mid: seq<Piece>, verb: string, f: Piece, units: set<string>, verbs: set<string>)
    requires NewPieces(mid, verb, f) && f.Fenced? && PieceOk(f, units, verbs) && verb in verbs && NamesOk(units, verbs)
    ensures PiecesOk(mid, units, verbs)
  {
    forall l | l == HOOKS || l == [] ensures !IsMarker(l, units) {
      forall u | u in units ensures !IsBegin(Yaml, l, u) && !IsEnd(Yaml, l, u) {
        TrimmedMarkers(u);
        assert TrimEnd(HOOKS) <= HOOKS;
      }
    }
  }

  lemma FlatInserted(ps: seq<Piece>, j: nat, mid: seq<Piece>)
    requires j <= |ps|
    ensures var x := |Flat(ps[..j])|;
      x <= |Flat(ps)| && Flat(ps[..j] + mid + ps[j..]) == Flat(ps)[..x] + Flat(mid) + Flat(ps)[x..]
  {
    hide Flat;
    FlatSplit(ps, j);
    FlatConcat(ps[..j] + mid, ps[j..]);
    FlatConcat(ps[..j], mid);
  }

  lemma AddedPieces(ps: seq<Piece>, units: set<string>, verbs: set<string>, verb: string, f: Piece)
    returns (j: nat, mid: seq<Piece>)
    requires NamesOk(units, verbs) && PiecesOk(ps, units, verbs) && verb in verbs && f.Fenced?
    ensures j <= |ps| && NewPieces(mid, verb, f)
    ensures AddedLines(Flat(ps), verb, PieceLines(f)) == Flat(ps[..j] + mid + ps[j..])
  {
    hide Flat, InsertAt, PieceLines, NamesOk, PiecesOk, VerbKey, AddedLines;
    var ls := Flat(ps);
    var vi, hi := FindKey(ls, VerbKey(verb), 0), FindKey(ls, HOOKS, 0);
    if vi < |ls| {
      j := InsertBoundary(ps, units, verbs, vi);
      mid := [f];
      FlatInserted(ps, j, mid);
      UnderKey(ls, verb, f);
    } else if hi < |ls| {
      var k := KeyPiece(ps, units, verbs, hi);
      j := k + 1;
      mid := [SynthKey(verb), f];
      OnePieceOn(ps, k);
      FlatInserted(ps, j, mid);
      UnderHooks(ls, verb, f);
    } else {
      j := |ps|;
      mid := if ls == [] then [Plain([]), Plain(HOOKS), SynthKey(verb), f] else [Plain(HOOKS), SynthKey(verb), f];
      assert ps[..|ps|] == ps;
      FlatInserted(ps, j, mid);
      AtTheEnd(ls, mid, verb, f);
    }
  }

  lemma UnderKey(ls: seq<string>, verb: string, f: Piece)
    requires FindKey(ls, VerbKey(verb), 0) < |ls|
    ensures var x := InsertAt(ls, FindKey(ls, VerbKey(verb), 0));
      AddedLines(ls, verb, PieceLines(f)) == ls[..x] + Flat([f]) + ls[x..]
  {
    hide PieceLines, FindKey, InsertAt, VerbKey;
    FlatOne(f);
  }

  lemma UnderHooks(ls: seq<string>, verb: string, f: Piece)
    requires FindKey(ls, VerbKey(verb), 0) == |ls| && FindKey(ls, HOOKS, 0) < |ls|
    ensures var x := FindKey(ls, HOOKS, 0) + 1;
      AddedLines(ls, verb, PieceLines(f)) == ls[..x] + Flat([SynthKey(verb), f]) + ls[x..]
  {
    hide PieceLines, FindKey, VerbKey, Flat;
    FlatOfNew(verb, f);
    Associate(ls[..FindKey(ls, HOOKS, 0) + 1], [VerbKey(verb)], PieceLines(f));
  }

  lemma OnePieceOn(ps: seq<Piece>, k: nat)
    requires k < |ps| && |PieceLines(ps[k])| == 1
    ensures |Flat(ps[..k + 1])| == |Flat(ps[..k])| + 1
  {
    hide PieceLines;
    assert ps[..k + 1] == ps[..k] + [ps[k]];
    FlatConcat(ps[..k], [ps[k]]);
    FlatOne(ps[k]);
  }

  lemma FlatOfNew(verb: string, f: Piece)
    ensures Flat([f]) == PieceLines(f)
    ensures Flat([SynthKey(verb), f]) == [VerbKey(verb)] + PieceLines(f)
    ensures Flat([Plain(HOOKS), SynthKey(verb), f]) == [HOOKS, VerbKey(verb)] + PieceLines(f)
    ensures Flat([Plain([]), Plain(HOOKS), SynthKey(verb), f]) == [[], HOOKS, VerbKey(verb)] + PieceLines(f)
  {
    FlatOne(f);
    FlatOne(SynthKey(verb));
    FlatOne(Plain(HOOKS));
    FlatOne(Plain([]));
    FlatConcat([SynthKey(verb)], [f]);
    FlatConcat([Plain(HOOKS)], [SynthKey(verb), f]);
    FlatConcat([Plain([])], [Plain(HOOKS), SynthKey(verb), f]);
    assert [SynthKey(verb)] + [f] == [SynthKey(verb), f];
    assert [Plain(HOOKS)] + [SynthKey(verb), f] == [Plain(HOOKS), SynthKey(verb), f];
    assert [Plain([])] + [Plain(HOOKS), SynthKey(verb), f] == [Plain([]), Plain(HOOKS), SynthKey(verb), f];
  }

  lemma AtTheEnd(ls: seq<string>, mid: seq<Piece>, verb: string, f: Piece)
    requires FindKey(ls, VerbKey(verb), 0) == |ls| && FindKey(ls, HOOKS, 0) == |ls|
    requires mid == if ls == [] then [Plain([]), Plain(HOOKS), SynthKey(verb), f] else [Plain(HOOKS), SynthKey(verb), f]
    ensures AddedLines(ls, verb, PieceLines(f)) == ls[..|ls|] + Flat(mid) + ls[|ls|..]
  {
    hide PieceLines, FindKey, VerbKey;
    FlatOfNew(verb, f);
  }

  lemma InsertedOk(ps: seq<Piece>, j: nat, mid: seq<Piece>, units: set<string>, verbs: set<string>, u: string)
    requires PiecesOk(ps, units, verbs) && PiecesOk(mid, units, verbs) && j <= |ps|
    requires forall p :: p in ps && p.Fenced? ==> p.unit != u
    requires forall p :: p in mid && p.Fenced? ==> p.unit == u
    ensures PiecesOk(ps[..j] + mid + ps[j..], units, verbs)
  {
    hide PieceOk;
    var all := ps[..j] + mid + ps[j..];
    forall x, y | 0 <= x < y < |all| && all[x].Fenced? && all[y].Fenced? ensures all[x].unit != all[y].unit {
      assert x < j ==> all[x] == ps[x];
      assert x >= j + |mid| ==> all[x] == ps[x - |mid|];
      assert y < j ==> all[y] == ps[y];
      assert y >= j + |mid| ==> all[y] == ps[y - |mid|];
      assert j <= x < j + |mid| ==> all[x] in mid;
      assert j <= y < j + |mid| ==> all[y] in mid;
    }
  }

  // ---- a removal takes out a whole fence ----

  lemma {:induction false} FlatFree(ps: seq<Piece>, units: set<string>, verbs: set<string>, u: string)
    requires NamesOk(units, verbs) && u in units && forall p :: p in ps ==> PieceOk(p, units, verbs)
    requires forall p :: p in ps && p.Fenced? ==> p.unit != u
    ensures Free(Yaml, Flat(ps), u)
    decreases ps
  {
    hide PieceOk;
    if ps != [] {
      FlatFree(ps[1..], units, verbs, u);
      PieceFree(ps[0], units, verbs, u);
    }
  }

  lemma PieceFree(p: Piece, units: set<string>, verbs: set<string>, u: string)
    requires NamesOk(units, verbs) && u in units && PieceOk(p, units, verbs) && (p.Fenced? ==> p.unit != u)
    ensures Free(Yaml, PieceLines(p), u)
  {
    hide BeginMarker, EndMarker, IsBegin, IsEnd, VerbKey, UnitOk, VerbOk;
    if p.Fenced? {
      MarkerFacts(p.unit, u);
    } else if p.SynthKey? {
      KeyFacts(p.verb, u);
    }
  }

  lemma PieceIsFence(p: Piece, units: set<string>, verbs: set<string>)
    requires NamesOk(units, verbs) && PieceOk(p, units, verbs) && p.Fenced?
    ensures IsFence(Yaml, PieceLines(p), p.unit)
  {
    hide BeginMarker, EndMarker, IsBegin, IsEnd, UnitOk, VerbOk, IsKeyLine;
    MarkersThemselves(p.unit);
    var f := PieceLines(p);
    forall i | 0 < i < |f| - 1 ensures !IsEnd(Yaml, f[i], p.unit) {
      assert f[i] == p.body[i - 1] && f[i] in p.body;
    }
  }

  /** Removing the fence at `k` leaves the other pieces, tidied. */
  lemma StripPiece(ps: seq<Piece>, k: nat, units: set<string>, verbs: set<string>)
    requires NamesOk(units, verbs) && PiecesOk(ps, units, verbs) && k < |ps| && ps[k].Fenced?
    ensures Strip(Yaml, Flat(ps), ps[k].unit) == Cut(Tidied(Flat(ps[..k] + ps[k + 1..])))
  {
    hide Flat, PieceLines, PieceOk, IsFence, Free, Strip, Tidied;
    var p := ps[k];
    assert p in ps;
    FlatParts(ps, k);
    PieceIsFence(p, units, verbs);
    FencedUnit(p, units, verbs);
    FlatFree(ps[..k], units, verbs, p.unit);
    StripFence(Yaml, Flat(ps[..k]), PieceLines(p), Flat(ps[k + 1..]), p.unit);
  }

  lemma FlatParts(ps: seq<Piece>, k: nat)
    requires k < |ps|
    ensures Flat(ps) == Flat(ps[..k]) + PieceLines(ps[k]) + Flat(ps[k + 1..])
    ensures Flat(ps[..k] + ps[k + 1..]) == Flat(ps[..k]) + Flat(ps[k + 1..])
  {
    hide Flat, PieceLines;
    var p := ps[k];
    assert ps == ps[..k] + ([p] + ps[k + 1..]);
    FlatConcat(ps[..k], [p] + ps[k + 1..]);
    FlatConcat([p], ps[k + 1..]);
    FlatOne(p);
    FlatConcat(ps[..k], ps[k + 1..]);
    Associate(Flat(ps[..k]), PieceLines(p), Flat(ps[k + 1..]));
  }

  lemma FencedUnit(p: Piece, units: set<string>, verbs: set<string>)
    requires PieceOk(p, units, verbs) && p.Fenced?
    ensures p.unit in units
  {
  }

  /** Tidying at the level of pieces: repeated blank lines go, fences stay whole. */
  function CollapsePieces(prev: bool, ps: seq<Piece>): seq<Piece>
    decreases ps
  {
    if ps == [] then []
    else
      match ps[0]
      case Plain(l) =>
        if l == [] && prev then CollapsePieces(true, ps[1..]) else [ps[0]] + CollapsePieces(l == [], ps[1..])
      case SynthKey(_) => [ps[0]] + CollapsePieces(false, ps[1..])
      case Fenced(u, body) => [Fenced(u, Collapse(false, body))] + CollapsePieces(false, ps[1..])
  }

  function TrimPieces(ps: seq<Piece>): seq<Piece> {
    if ps != [] && ps[|ps| - 1] == Plain([]) then TrimPieces(ps[..|ps| - 1]) else ps
  }

  lemma {:induction false} FlatCollapse(prev: bool, ps: seq<Piece>)
    ensures Collapse(prev, Flat(ps)) == Flat(CollapsePieces(prev, ps))
    decreases ps
  {
    hide PieceLines;
    if ps != [] {
      var rest := Flat(ps[1..]);
      CollapseConcat(prev, PieceLines(ps[0]), rest);
      PieceCollapse(prev, ps[0]);
      FlatCollapse(true, ps[1..]);
      FlatCollapse(false, ps[1..]);
    }
  }

  lemma PieceCollapse(prev: bool, p: Piece)
    ensures match p
      case Plain(l) =>
        Collapse(prev, PieceLines(p)) == (if l == [] && prev then [] else PieceLines(p)) && EndBlank(prev, PieceLines(p)) == (l == [])
      case SynthKey(_) => Collapse(prev, PieceLines(p)) == PieceLines(p) && !EndBlank(prev, PieceLines(p))
      case Fenced(u, body) =>
        Collapse(prev, PieceLines(p)) == PieceLines(Fenced(u, Collapse(false, body))) && !EndBlank(prev, PieceLines(p))
  {
    match p
    case Plain(l) =>
      assert Collapse(prev, [l]) == if l == [] && prev then [] else [l];
    case SynthKey(v) =>
      assert VerbKey(v) != [] && Collapse(prev, [VerbKey(v)]) == [VerbKey(v)];
    case Fenced(u, body) =>
      assert BeginMarker(Yaml, u) != [] && EndMarker(Yaml, u) != [];
      FenceCollapse(BeginMarker(Yaml, u), body, EndMarker(Yaml, u));
      assert PieceLines(p) == [BeginMarker(Yaml, u)] + (body + [EndMarker(Yaml, u)]);
      var c := Collapse(false, body);
      assert PieceLines(Fenced(u, c)) == [BeginMarker(Yaml, u)] + (c + [EndMarker(Yaml, u)]);
  }

  lemma {:induction false} FlatTrim(ps: seq<Piece>)
    ensures TrimBlanks(Flat(ps)) == Flat(TrimPieces(ps))
    decreases ps
  {
    hide PieceLines;
    if ps != [] {
      var before, last := ps[..|ps| - 1], ps[|ps| - 1];
      assert ps == before + [last];
      FlatConcat(before, [last]);
      FlatOne(last);
      LastPieceLine(last);
      if last == Plain([]) {
        FlatTrim(before);
        assert Flat(ps)[..|Flat(ps)| - 1] == Flat(before);
      }
    }
  }

  lemma LastPieceLine(p: Piece)
    ensures p == Plain([]) ==> PieceLines(p) == [[]]
    ensures p != Plain([]) ==> PieceLines(p)[|PieceLines(p)| - 1] != []
  {
  }

  lemma {:induction false} CollapsePiecesOk(prev: bool, ps: seq<Piece>, units: set<string>, verbs: set<string>)
    requires PiecesOk(ps, units, verbs)
    ensures PiecesOk(CollapsePieces(prev, ps), units, verbs)
    ensures forall q :: q in CollapsePieces(prev, ps) && q.Fenced? ==> exists p :: p in ps && p.Fenced? && p.unit == q.unit
    decreases ps
  {
    hide BodyOk, IsMarker;
    if ps != [] {
      assert PiecesOk(ps[1..], units, verbs) && ps[0] in ps;
      CollapsePiecesOk(true, ps[1..], units, verbs);
      CollapsePiecesOk(false, ps[1..], units, verbs);
      if ps[0].Fenced? {
        CollapsedBodyOk(ps[0].body, units, verbs);
      }
      HeadNew(ps, units, verbs);
    }
  }

  lemma HeadNew(ps: seq<Piece>, units: set<string>, verbs: set<string>)
    requires ps != [] && PiecesOk(ps, units, verbs)
    ensures ps[0].Fenced? ==> forall p :: p in ps[1..] && p.Fenced? ==> p.unit != ps[0].unit
  {
    forall p | ps[0].Fenced? && p in ps[1..] && p.Fenced? ensures p.unit != ps[0].unit {
      var i :| 0 <= i < |ps| - 1 && ps[1..][i] == p;
      assert ps[i + 1] == p;
    }
  }

  lemma CollapsedBodyOk(body: seq<string>, units: set<string>, verbs: set<string>)
    requires BodyOk(body, units, verbs)
    ensures BodyOk(Collapse(false, body), units, verbs)
  {
    hide IsMarker, IsKeyLine;
    CollapseKeepsMembers(false, body);
  }

  lemma {:induction false} TrimPiecesPrefix(ps: seq<Piece>)
    ensures TrimPieces(ps) <= ps
    decreases ps
  {
    if ps != [] && ps[|ps| - 1] == Plain([]) { TrimPiecesPrefix(ps[..|ps| - 1]); }
  }

  /** A removal gives well-fenced lines again. */
  lemma RemovedPieces(ps: seq<Piece>, k: nat, units: set<string>, verbs: set<string>) returns (rest: seq<Piece>)
    requires NamesOk(units, verbs) && PiecesOk(ps, units, verbs) && k < |ps| && ps[k].Fenced?
    ensures Strip(Yaml, Flat(ps), ps[k].unit) == Cut(Flat(rest)) && PiecesOk(rest, units, verbs)
  {
    hide Flat, PieceOk, Strip, Collapse, TrimBlanks;
    var left := ps[..k] + ps[k + 1..];
    StripPiece(ps, k, units, verbs);
    FlatCollapse(false, left);
    var c := CollapsePieces(false, left);
    FlatTrim(c);
    rest := TrimPieces(c);
    FewerPiecesOk(ps, k, units, verbs);
    CollapsePiecesOk(false, left, units, verbs);
    TrimPiecesPrefix(c);
  }

  lemma FewerPiecesOk(ps: seq<Piece>, k: nat, units: set<string>, verbs: set<string>)
    requires PiecesOk(ps, units, verbs) && k < |ps|
    ensures PiecesOk(ps[..k] + ps[k + 1..], units, verbs)
  {
    hide PieceOk;
    var left := ps[..k] + ps[k + 1..];
    assert forall p :: p in left ==> p in ps;
    forall x, y | 0 <= x < y < |left| && left[x].Fenced? && left[y].Fenced? ensures left[x].unit != left[y].unit {
      assert left[x] == ps[if x < k then x else x + 1] && left[y] == ps[if y < k then y else y + 1];
    }
  }

  // ---- any sequence of edits ----

  datatype Op = AddOp(unit: string, verb: string, entry: string) | RemoveOp(unit: string)

  function Apply(content: string, op: Op): FenceResult {
    match op
    case AddOp(unit, verb, entry) => Ok(AddText(content, unit, verb, entry))
    case RemoveOp(unit) => RemoveText(Yaml, content, unit)
  }

  function Run(content: string, ops: seq<Op>): FenceResult
    decreases ops
  {
    if ops == [] then Ok(content)
    else
      var r := Apply(content, ops[0]);
      if r.Ok? then Run(r.text, ops[1..]) else r
  }

  ghost predicate OpOk(op: Op, units: set<string>, verbs: set<string>) {
    op.unit in units && (op.AddOp? ==> op.verb in verbs && BodyOk(BodyLines(op.entry), units, verbs))
  }

  /** The fences of the file are paired, disjoint, one per unit, and hold no key line. */
  ghost predicate WellFenced(content: string, units: set<string>, verbs: set<string>) {
    exists ps :: Lines(content) == Flat(ps) && PiecesOk(ps, units, verbs)
  }

  /** A unit's begin line is there exactly when it has a fence. */
  lemma HasPiece(ps: seq<Piece>, units: set<string>, verbs: set<string>, u: string)
    requires NamesOk(units, verbs) && PiecesOk(ps, units, verbs) && u in units
    ensures Has(Flat(ps), u) <==> exists k :: 0 <= k < |ps| && ps[k].Fenced? && ps[k].unit == u
  {
    hide Flat, PieceOk, IsBegin, BeginMarker, NamesOk;
    if k :| 0 <= k < |ps| && ps[k].Fenced? && ps[k].unit == u {
      FlatHead(ps, k);
      MarkersThemselves(u);
      assert IsBegin(Yaml, Flat(ps)[|Flat(ps[..k])|], u);
    } else {
      FlatFree(ps, units, verbs, u);
    }
  }

  lemma AddKeepsFences(content: string, op: Op, units: set<string>, verbs: set<string>)
    requires NamesOk(units, verbs) && WellFenced(content, units, verbs) && OpOk(op, units, verbs) && op.AddOp?
    ensures WellFenced(AddText(content, op.unit, op.verb, op.entry), units, verbs)
  {
    hide Flat, Has, FenceLines, AddedLines, Lines, BodyLines, BodyOk, PieceOk, AddText, BeginMarker, EndMarker;
    var ps: seq<Piece> :| Lines(content) == Flat(ps) && PiecesOk(ps, units, verbs);
    if Has(Lines(content), op.unit) {
      PresentUnchanged(content, op);
    } else {
      var f := Fenced(op.unit, BodyLines(op.entry));
      assert PieceLines(f) == FenceLines(op.unit, op.entry) by { FenceAsPiece(op.unit, op.entry); }
      HasPiece(ps, units, verbs, op.unit);
      var j, mid := AddedPieces(ps, units, verbs, op.verb, f);
      NewFenceOk(f, units, verbs);
      NewPiecesOk(mid, op.verb, f, units, verbs);
      InsertedOk(ps, j, mid, units, verbs, op.unit);
      LinesOfAdded(content, op.unit, op.verb, op.entry);
      assert Lines(AddText(content, op.unit, op.verb, op.entry)) == Flat(ps[..j] + mid + ps[j..]);
    }
  }

  lemma PresentUnchanged(content: string, op: Op)
    requires op.AddOp? && Has(Lines(content), op.unit)
    ensures AddText(content, op.unit, op.verb, op.entry) == content
  {
  }

  lemma FenceAsPiece(unit: string, entry: string)
    ensures PieceLines(Fenced(unit, BodyLines(entry))) == FenceLines(unit, entry)
  {
  }

  lemma NewFenceOk(f: Piece, units: set<string>, verbs: set<string>)
    requires f.Fenced? && f.unit in units && BodyOk(f.body, units, verbs)
    ensures PieceOk(f, units, verbs)
  {
  }

  lemma RemoveKeepsFences(content: string, unit: string, units: set<string>, verbs: set<string>)
    requires NamesOk(units, verbs) && WellFenced(content, units, verbs) && unit in units
    ensures var r := RemoveText(Yaml, content, unit); r.Ok? && WellFenced(r.text, units, verbs)
  {
    hide Flat, Has, Lines, PiecesOk, Strip, Rejoin, NamesOk;
    var ps: seq<Piece> :| Lines(content) == Flat(ps) && PiecesOk(ps, units, verbs);
    HasPiece(ps, units, verbs, unit);
    if Has(Lines(content), unit) {
      var k :| 0 <= k < |ps| && ps[k].Fenced? && ps[k].unit == unit;
      var rest := RemovedPieces(ps, k, units, verbs);
      AfterStrip(Yaml, content, unit);
    } else {
      AbsentStrip(Lines(content), unit);
    }
  }

  lemma AbsentStrip(ls: seq<string>, unit: string)
    requires !Has(ls, unit)
    ensures Strip(Yaml, ls, unit) == Absent
  {
  }

  /** No sequence of adds and removes ever fails, tears a fence apart or nests one in another. */
  lemma {:induction false} EditsKeepFences(content: string, ops: seq<Op>, units: set<string>, verbs: set<string>)
    requires NamesOk(units, verbs) && WellFenced(content, units, verbs)
    requires forall op :: op in ops ==> OpOk(op, units, verbs)
    ensures Run(content, ops).Ok? && WellFenced(Run(content, ops).text, units, verbs)
    decreases ops
  {
    hide NamesOk, WellFenced, OpOk, AddText, RemoveText;
    if ops != [] {
      var op := ops[0];
      assert OpOk(op, units, verbs);
      if op.AddOp? {
        AddKeepsFences(content, op, units, verbs);
      } else {
        OpUnit(op, units, verbs);
        RemoveKeepsFences(content, op.unit, units, verbs);
      }
      EditsKeepFences(Apply(content, op).text, ops[1..], units, verbs);
    }
  }

  lemma OpUnit(op: Op, units: set<string>, verbs: set<string>)
    requires OpOk(op, units, verbs)
    ensures op.unit in units
  {
  }
}
