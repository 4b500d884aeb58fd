/**
 * The host-language string primitives the plugin relies on, on ASCII text:
 * lower-casing (PHP `strtolower`, locale-independent since PHP 8.2), character
 * replacement (`str_replace` of one character), case-insensitive suffix tests
 * (a PCRE `/i` pattern anchored with `$`), and PHP's `explode` / `implode`.
 */
module Strings {

  function LowerChar(c: char): (d: char)
    ensures 'A' <= c <= 'Z' ==> d as int == c as int + 32
    ensures !('A' <= c <= 'Z') ==> d == c
  {
    if 'A' <= c <= 'Z' then (c as int + 32) as char else c
  }

  function Lower(s: string): string {
    seq(|s|, i requires 0 <= i < |s| => LowerChar(s[i]))
  }

  /** `str_replace(from, to, s)` for single characters. */
  function ReplaceChar(s: string, from: char, to: char): string {
    seq(|s|, i requires 0 <= i < |s| => if s[i] == from then to else s[i])
  }

  /** ASCII case-insensitive equality, as PCRE's `/i` compares outside UTF mode. */
  predicate EqualsIgnoreCase(a: string, b: string) {
    Lower(a) == Lower(b)
  }

  /** `s` ends with `suffix`, ignoring ASCII case. */
  predicate EndsWithIgnoreCase(s: string, suffix: string) {
    |suffix| <= |s| && EqualsIgnoreCase(s[|s| - |suffix|..], suffix)
  }

  predicate StartsWith(s: string, prefix: string) {
    |prefix| <= |s| && s[..|prefix|] == prefix
  }

  predicate EndsWith(s: string, suffix: string) {
    |suffix| <= |s| && s[|s| - |suffix|..] == suffix
  }

  /** PHP `implode('', parts)`. */
  function Concat(parts: seq<string>): (r: string)
  {
    if parts == [] then "" else Concat(parts[..|parts| - 1]) + parts[|parts| - 1]
  }

  /** `implode(sep, parts)`: the inverse of `Explode`. */
  function Implode(parts: seq<string>, sep: char): string
  {
    if parts == [] then ""
    else if |parts| == 1 then parts[0]
    else parts[0] + [sep] + Implode(parts[1..], sep)
  }

  /**
   * PHP `explode(sep, s)`: the pieces of `s` between occurrences of `sep`.
   * There is always at least one piece (the empty string gives `[""]`), and
   * no piece contains the separator.
   */
  function Explode(s: string, sep: char): (r: seq<string>)
    ensures |r| >= 1
  {
    if s == [] then [""]
    else
      var rest := Explode(s[1..], sep);
      if s[0] == sep then [""] + rest
      else [[s[0]] + rest[0]] + rest[1..]
  }

  /** No piece produced by `Explode` contains the separator. */
  lemma {:induction false} ExplodePiecesLackSeparator(s: string, sep: char)
    ensures forall i :: 0 <= i < |Explode(s, sep)| ==> sep !in Explode(s, sep)[i]
    decreases |s|
  {
    if s != [] {
      ExplodePiecesLackSeparator(s[1..], sep);
      var rest := Explode(s[1..], sep);
      if s[0] != sep {
        var r := Explode(s, sep);
        assert r[0] == [s[0]] + rest[0];
        forall i | 0 <= i < |r| ensures sep !in r[i] {
          if i > 0 { assert r[i] == rest[i]; }
        }
      }
    }
  }

  lemma {:induction false} ConcatAppend(parts: seq<string>, p: string)
    ensures Concat(parts + [p]) == Concat(parts) + p
  {
  }

  lemma {:induction false} ConcatCons(p: string, parts: seq<string>)
    ensures Concat([p] + parts) == p + Concat(parts)
    decreases |parts|
  {
    if parts == [] {
      assert [p] + parts == [p];
      assert Concat([p]) == Concat([]) + p;
    } else {
      var init := parts[..|parts| - 1];
      var last := parts[|parts| - 1];
      assert [p] + parts == ([p] + init) + [last];
      ConcatAppend([p] + init, last);
      ConcatCons(p, init);
      ConcatAppend(init, last);
      assert init + [last] == parts;
    }
  }

  /** Exploding and imploding with the same separator gives back the input. */
  lemma {:induction false} ImplodeExplode(s: string, sep: char)
    ensures Implode(Explode(s, sep), sep) == s
    decreases |s|
  {
    if s != [] {
      var rest := Explode(s[1..], sep);
      ImplodeExplode(s[1..], sep);
      if s[0] == sep {
        assert Explode(s, sep) == [""] + rest;
        assert s == [sep] + s[1..];
      } else {
        var r := [[s[0]] + rest[0]] + rest[1..];
        assert Explode(s, sep) == r;
        if |rest| == 1 {
          assert Implode(r, sep) == [s[0]] + rest[0];
          assert s == [s[0]] + s[1..];
        } else {
          assert r[1..] == rest[1..];
          assert Implode(rest, sep) == rest[0] + [sep] + Implode(rest[1..], sep);
          assert s == [s[0]] + s[1..];
        }
      }
    }
  }

  /** Imploding pieces that do not contain the separator and exploding again gives back the pieces. */
  lemma {:induction false} ExplodeImplode(parts: seq<string>, sep: char)
    requires |parts| >= 1
    requires forall i :: 0 <= i < |parts| ==> sep !in parts[i]
    ensures Explode(Implode(parts, sep), sep) == parts
    decreases |parts|, |parts[0]|
  {
    var p := parts[0];
    if p == [] {
      if |parts| == 1 {
        assert Implode(parts, sep) == [];
      } else {
        ExplodeImplode(parts[1..], sep);
        var s := Implode(parts, sep);
        assert s == [sep] + Implode(parts[1..], sep);
        assert s[1..] == Implode(parts[1..], sep);
        assert [""] + parts[1..] == parts;
      }
    } else {
      var parts' := [p[1..]] + parts[1..];
      assert p[1..] == parts'[0];
      assert forall i :: 0 <= i < |parts'| ==> sep !in parts'[i] by {
        forall i | 0 <= i < |parts'| ensures sep !in parts'[i] {
          if i == 0 {
            assert forall c :: c in p[1..] ==> c in p;
          } else {
            assert parts'[i] == parts[i];
          }
        }
      }
      ExplodeImplode(parts', sep);
      var s := Implode(parts, sep);
      var s' := Implode(parts', sep);
      if |parts| == 1 {
        assert s == p && s' == p[1..];
      } else {
        assert parts'[1..] == parts[1..];
        assert s == p + [sep] + Implode(parts[1..], sep);
        assert s' == p[1..] + [sep] + Implode(parts[1..], sep);
      }
      assert s != [] && s[0] == p[0] && s[1..] == s';
      assert p[0] != sep by { assert p[0] in parts[0]; }
      var rest := Explode(s', sep);
      assert Explode(s, sep) == [[p[0]] + rest[0]] + rest[1..];
      assert [p[0]] + p[1..] == p;
      assert parts == [p] + parts[1..];
    }
  }
}
