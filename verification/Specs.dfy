/** Spec descriptors, and when a path belongs to a spec's support. */
module Specs {
  datatype SpecDescriptor = SpecDescriptor(id: string, support: seq<string>)

  // ---- support matching ----

  function TrimSlashes(s: string): string {
    if s != [] && s[|s| - 1] == '/' then TrimSlashes(s[..|s| - 1]) else s
  }

  predicate Under(sup: string, file: string) {
    var bare := TrimSlashes(sup);
    file == bare || bare + "/" <= file
  }

  /** One more character in front: a slash opens a component, anything else extends the first one. */
  ghost function Push(c: char, rest: seq<string>): (r: seq<string>)
    requires |rest| > 0
    ensures |r| > 0
  {
    if c == '/' then [[]] + rest else [[c] + rest[0]] + rest[1..]
  }

  /** The path components between slashes. */
  ghost function Components(s: string): (r: seq<string>)
    ensures |r| > 0
  {
    if s == [] then [[]] else Push(s[0], Components(s[1..]))
  }

  lemma PushPrefix(c: char, x: seq<string>, d: char, y: seq<string>)
    requires |x| > 0 && |y| > 0
    ensures Push(c, x) <= Push(d, y) <==> c == d && x <= y
  {
    var x', y' := Push(c, x), Push(d, y);
    if c == d && x <= y {
      assert x == [x[0]] + x[1..] && y == [y[0]] + y[1..];
    }
    if x' <= y' {
      assert x'[0] == y'[0];
      assert c != '/' ==> x'[0][0] == c && x'[0][1..] == x[0];
      assert d != '/' ==> y'[0][0] == d && y'[0][1..] == y[0];
      forall i | 0 <= i < |x| ensures i < |y| && x[i] == y[i] {
        var k := if c == '/' then i + 1 else i;
        assert x'[k] == y'[k];
      }
    }
  }

  lemma {:induction false} ComponentPrefix(b: string, f: string)
    ensures (f == b || b + "/" <= f) <==> Components(b) <= Components(f)
    decreases b
  {
    if b == [] {
      assert b + "/" == "/";
      assert f != [] && f[0] != '/' ==> Components(f)[0] != [];
      assert f != [] && f[0] == '/' ==> Components(f)[0] == [] && f == "/" + f[1..];
      assert Components(f) == [Components(f)[0]] + Components(f)[1..];
    } else if f != [] {
      ComponentPrefix(b[1..], f[1..]);
      PushPrefix(b[0], Components(b[1..]), f[0], Components(f[1..]));
      assert b == [b[0]] + b[1..] && f == [f[0]] + f[1..];
      assert b + "/" == [b[0]] + (b[1..] + "/");
      PrefixOfCons(b[0], b[1..] + "/", f);
    } else {
      assert b[0] != '/' ==> Components(b)[0] != [];
    }
  }

  lemma PrefixOfCons(c: char, rest: string, f: string)
    requires f != []
    ensures [c] + rest <= f <==> c == f[0] && rest <= f[1..]
  {
    if [c] + rest <= f { assert ([c] + rest)[1..] == rest; }
    if c == f[0] && rest <= f[1..] { assert f == [c] + f[1..]; }
  }

  /** Matching is exact on directory boundaries: the support's components begin the file's. */
  lemma UnderIsComponentPrefix(sup: string, file: string)
    ensures Under(sup, file) <==> Components(TrimSlashes(sup)) <= Components(file)
  {
    ComponentPrefix(TrimSlashes(sup), file);
  }

  /** A trailing slash on a support entry changes nothing. */
  lemma TrailingSlashIgnored(sup: string, file: string)
    ensures Under(sup + "/", file) <==> Under(sup, file)
  {
    assert (sup + "/")[..|sup|] == sup;
  }
}
