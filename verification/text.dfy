/** String helpers: ASCII case folding and substring containment. */
module Text {

  /** Maps an upper-case ASCII letter to its lower-case form; every other
      character is returned unchanged. */
  function LowerChar(c: char): char {
    if 'A' <= c <= 'Z' then (c as int - 'A' as int + 'a' as int) as char else c
  }

  /** `s.lower()`, restricted to ASCII letters (see `SpellsTrue` for why this
      is enough for the flag parsing of the agent). */
  function AsciiLower(s: string): (r: string)
    ensures |r| == |s|
    ensures forall i :: 0 <= i < |s| ==> r[i] == LowerChar(s[i])
  {
    if s == [] then [] else [LowerChar(s[0])] + AsciiLower(s[1..])
  }

  /** `v` is the word "true" in any mix of upper- and lower-case letters. */
  predicate SpellsTrue(v: string) {
    && |v| == 4
    && (v[0] == 't' || v[0] == 'T')
    && (v[1] == 'r' || v[1] == 'R')
    && (v[2] == 'u' || v[2] == 'U')
    && (v[3] == 'e' || v[3] == 'E')
  }

  /** The only characters that lower to a lower-case ASCII letter are that
      letter and its upper-case form. */
  lemma LowerCharToLetter(c: char, x: char)
    requires 'a' <= x <= 'z'
    ensures LowerChar(c) == x <==> c == x || c as int == x as int - 32
  {
  }

  /** Lowering `v` yields "true" exactly when `v` spells "true" in any case. */
  lemma LowerIsTrueIff(v: string)
    ensures AsciiLower(v) == "true" <==> SpellsTrue(v)
  {
    var t := "true";
    if |v| == 4 {
      forall i | 0 <= i < 4
        ensures LowerChar(v[i]) == t[i] <==> v[i] == t[i] || v[i] as int == t[i] as int - 32
      {
        LowerCharToLetter(v[i], t[i]);
      }
      if SpellsTrue(v) {
        assert forall i :: 0 <= i < 4 ==> AsciiLower(v)[i] == t[i];
      }
      if AsciiLower(v) == t {
        assert forall i :: 0 <= i < 4 ==> LowerChar(v[i]) == t[i];
      }
    }
  }

  /** The concatenation of `parts`, in order: how an f-string assembles its
      literal pieces and interpolated values. */
  function Join(parts: seq<string>): string {
    if parts == [] then [] else parts[0] + Join(parts[1..])
  }

  /** A join of five parts is their concatenation. */
  lemma JoinFive(a: string, b: string, c: string, d: string, e: string)
    ensures Join([a, b, c, d, e]) == a + b + c + d + e
  {
    calc {
      Join([a, b, c, d, e]);
      a + Join([b, c, d, e]);
      { assert [b, c, d, e][1..] == [c, d, e]; }
      a + (b + Join([c, d, e]));
      { assert [c, d, e][1..] == [d, e]; }
      a + (b + (c + Join([d, e])));
      { assert [d, e][1..] == [e]; }
      a + (b + (c + (d + Join([e]))));
      { assert [e][1..] == []; assert Join([e]) == e + []; assert e + [] == e; }
      a + (b + (c + (d + e)));
      a + b + c + d + e;
    }
  }

  /** A join of six parts is their concatenation. */
  lemma JoinSix(a: string, b: string, c: string, d: string, e: string, f: string)
    ensures Join([a, b, c, d, e, f]) == a + b + c + d + e + f
  {
    assert [a, b, c, d, e, f][1..] == [b, c, d, e, f];
    JoinFive(b, c, d, e, f);
    assert a + (b + c + d + e + f) == a + b + c + d + e + f;
  }

  /** `t` occurs in `s` starting at position `i`. */
  predicate OccursAt(s: string, t: string, i: nat) {
    i <= |s| && t <= s[i..]
  }

  /** `t` occurs in `s` as a contiguous substring. */
  predicate Contains(s: string, t: string) {
    exists i: nat :: i <= |s| && OccursAt(s, t, i)
  }

  /** A template `p + x + m + y + q` starts with `p` and contains both of
      its holes `x` and `y`. */
  lemma TwoHoles(p: string, x: string, m: string, y: string, q: string)
    ensures p <= p + x + m + y + q
    ensures Contains(p + x + m + y + q, x)
    ensures Contains(p + x + m + y + q, y)
  {
    var s := p + x + m + y + q;
    assert s[|p|..] == x + (m + y + q);
    assert OccursAt(s, x, |p|);
    assert s[|p + x + m|..] == y + q;
    assert OccursAt(s, y, |p + x + m|);
  }

  /** A template `p + x + m + y + n + z` starts with `p` and contains each of
      its holes `x`, `y` and `z`. */
  lemma ThreeHoles(p: string, x: string, m: string, y: string, n: string, z: string)
    ensures p <= p + x + m + y + n + z
    ensures Contains(p + x + m + y + n + z, x)
    ensures Contains(p + x + m + y + n + z, y)
    ensures Contains(p + x + m + y + n + z, z)
  {
    var s := p + x + m + y + n + z;
    assert s[|p|..] == x + (m + y + n + z);
    assert OccursAt(s, x, |p|);
    assert s[|p + x + m|..] == y + (n + z);
    assert OccursAt(s, y, |p + x + m|);
    assert s[|p + x + m + y + n|..] == z;
    assert OccursAt(s, z, |p + x + m + y + n|);
  }
}
