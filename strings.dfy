/** The string operations the application relies on, with JavaScript's
    meaning: `String.prototype.trim`, `toLowerCase` (on ASCII letters),
    `startsWith`, and the two regular expressions the schemas use for
    e-mail addresses and phone numbers. */
module Strings {

  /** ECMAScript's WhiteSpace and LineTerminator code points: what `trim`
      removes and what `\s` matches (so `\S` is its complement). */
  predicate IsSpace(c: char) {
    || c == '\t' || c == '\n' || c == '\U{000B}' || c == '\U{000C}' || c == '\r'
    || c == ' ' || c == '\U{00A0}' || c == '\U{1680}'
    || ('\U{2000}' <= c <= '\U{200A}')
    || c == '\U{2028}' || c == '\U{2029}' || c == '\U{202F}' || c == '\U{205F}'
    || c == '\U{3000}' || c == '\U{FEFF}'
  }

  predicate AllSpace(s: string) {
    forall k :: 0 <= k < |s| ==> IsSpace(s[k])
  }

  /** No leading and no trailing white space: what `trim` leaves behind. */
  predicate Trimmed(s: string) {
    |s| > 0 ==> !IsSpace(s[0]) && !IsSpace(s[|s| - 1])
  }

  /** `s` without its leading white space. */
  function TrimStart(s: string): (r: string)
    ensures |r| <= |s|
    ensures |r| > 0 ==> !IsSpace(r[0])
    decreases |s|
  {
    if |s| > 0 && IsSpace(s[0]) then TrimStart(s[1..]) else s
  }

  /** `s` without its trailing white space. */
  function TrimEnd(s: string): (r: string)
    ensures |r| <= |s|
    ensures |r| > 0 ==> r[0] == s[0] && !IsSpace(r[|r| - 1])
    decreases |s|
  {
    if |s| > 0 && IsSpace(s[|s| - 1]) then TrimEnd(s[..|s| - 1]) else s
  }

  /** `TrimStart` drops a prefix of white space and nothing else. */
  lemma {:induction false} TrimStartDrops(s: string)
    ensures var r := TrimStart(s); r == s[|s| - |r|..] && AllSpace(s[..|s| - |r|])
    decreases |s|
  {
    if |s| > 0 && IsSpace(s[0]) {
      TrimStartDrops(s[1..]);
      var r := TrimStart(s);
      assert s[1..][|s| - 1 - |r|..] == s[|s| - |r|..];
      var dropped, rest := s[..|s| - |r|], s[1..][..|s| - 1 - |r|];
      forall k | 0 <= k < |dropped| ensures IsSpace(dropped[k]) {
        if k > 0 {
          assert dropped[k] == rest[k - 1];
        }
      }
    }
  }

  /** `TrimEnd` drops a suffix of white space and nothing else. */
  lemma {:induction false} TrimEndDrops(s: string)
    ensures var r := TrimEnd(s); r == s[..|r|] && AllSpace(s[|r|..])
    decreases |s|
  {
    if |s| > 0 && IsSpace(s[|s| - 1]) {
      var t := s[..|s| - 1];
      TrimEndDrops(t);
      var r := TrimEnd(s);
      assert t[..|r|] == s[..|r|];
      forall k | 0 <= k < |s| - |r| ensures IsSpace(s[|r|..][k]) {
        if k < |s| - 1 - |r| {
          assert s[|r|..][k] == t[|r|..][k];
        }
      }
    }
  }

  /** `s.trim()`: keeps no white space at either end. */
  function Trim(s: string): (r: string)
    ensures |r| <= |s| && Trimmed(r)
  {
    TrimEnd(TrimStart(s))
  }

  /** What `trim` keeps: the slice of `s` left after dropping white space
      at both ends. */
  lemma TrimIsInnerSlice(s: string)
    ensures exists i, j :: 0 <= i <= j <= |s| && Trim(s) == s[i..j] && AllSpace(s[..i]) && AllSpace(s[j..])
  {
    var t := TrimStart(s);
    var r := TrimEnd(t);
    TrimStartDrops(s);
    TrimEndDrops(t);
    var i := |s| - |t|;
    assert r == s[i..i + |r|];
    assert s[i + |r|..] == t[|r|..];
  }

  /** A string without white space at either end is its own trim. */
  lemma {:induction false} TrimOfTrimmed(s: string)
    requires Trimmed(s)
    ensures Trim(s) == s
  {
    assert TrimStart(s) == s;
    assert TrimEnd(s) == s;
  }

  /** Trimming twice is trimming once. */
  lemma TrimIdempotent(s: string)
    ensures Trim(Trim(s)) == Trim(s)
  {
    TrimOfTrimmed(Trim(s));
  }

  /** A string of white space only trims to the empty string. */
  lemma TrimAllSpace(s: string)
    requires AllSpace(s)
    ensures Trim(s) == ""
  {
    TrimStartDrops(s);
  }

  function LowerChar(c: char): (d: char)
    ensures IsSpace(d) == IsSpace(c)
    ensures !('A' <= d <= 'Z')
  {
    if 'A' <= c <= 'Z' then (c as int - 'A' as int + 'a' as int) as char else c
  }

  /** `s.toLowerCase()` for the ASCII letters; every other character is kept. */
  function ToLower(s: string): (r: string)
    ensures |r| == |s|
    ensures forall k :: 0 <= k < |s| ==> r[k] == LowerChar(s[k])
  {
    seq(|s|, k requires 0 <= k < |s| => LowerChar(s[k]))
  }

  predicate IsLower(s: string) {
    forall k :: 0 <= k < |s| ==> !('A' <= s[k] <= 'Z')
  }

  /** Lower-casing yields a lower-case string and leaves one unchanged. */
  lemma ToLowerFixesLower(s: string)
    ensures IsLower(ToLower(s))
    ensures IsLower(s) ==> ToLower(s) == s
  {
  }

  lemma ToLowerIdempotent(s: string)
    ensures ToLower(ToLower(s)) == ToLower(s)
  {
    ToLowerFixesLower(ToLower(s));
  }

  /** Lower-casing keeps white space where it was, so it commutes with
      `trim`: the order of the `lowercase` and `trim` setters of a schema
      field does not matter. */
  lemma TrimLowerCommute(s: string)
    ensures Trim(ToLower(s)) == ToLower(Trim(s))
  {
    TrimIsInnerSlice(s);
    var i, j :| 0 <= i <= j <= |s| && Trim(s) == s[i..j] && AllSpace(s[..i]) && AllSpace(s[j..]);
    var l := ToLower(s);
    LowerSlice(s, 0, i);
    LowerSlice(s, i, j);
    LowerSlice(s, j, |s|);
    LowerKeepsSpace(s[..i]);
    LowerKeepsSpace(s[j..]);
    assert Trimmed(ToLower(s[i..j])) by {
      assert Trimmed(Trim(s));
    }
    TrimIsSlice(l, i, j);
  }

  /** `trim` is determined by any split of `s` into white space, a trimmed
      middle, and white space. */
  lemma TrimIsSlice(s: string, i: nat, j: nat)
    requires i <= j <= |s|
    requires AllSpace(s[..i]) && AllSpace(s[j..]) && Trimmed(s[i..j])
    ensures Trim(s) == s[i..j]
  {
    TrimStartSkips(s, i);
    var t := s[i..];
    if i < j {
      assert t[0] == s[i..j][0];
      assert TrimStart(t) == t;
      assert AllSpace(t[j - i..]) by { assert t[j - i..] == s[j..]; }
      TrimEndSkips(t, j - i);
      assert t[..j - i] == s[i..j];
      TrimOfTrimmed(s[i..j]);
    } else {
      TrimAllSpace(t);
    }
  }

  lemma LowerSlice(s: string, a: nat, b: nat)
    requires a <= b <= |s|
    ensures ToLower(s)[a..b] == ToLower(s[a..b])
  {
  }

  lemma LowerKeepsSpace(s: string)
    ensures AllSpace(ToLower(s)) == AllSpace(s)
  {
    if AllSpace(s) {
      forall k | 0 <= k < |s| ensures IsSpace(ToLower(s)[k]) {
        assert IsSpace(s[k]);
      }
    }
    if AllSpace(ToLower(s)) {
      forall k | 0 <= k < |s| ensures IsSpace(s[k]) {
        assert IsSpace(ToLower(s)[k]);
      }
    }
  }

  /** Dropping a white-space prefix before `TrimStart` changes nothing. */
  lemma {:induction false} TrimStartSkips(s: string, i: nat)
    requires i <= |s| && AllSpace(s[..i])
    ensures TrimStart(s) == TrimStart(s[i..])
    decreases i
  {
    if i > 0 {
      assert IsSpace(s[0]);
      assert s[1..][..i - 1] == s[1..i];
      TrimStartSkips(s[1..], i - 1);
      assert s[1..][i - 1..] == s[i..];
    }
  }

  /** Dropping a white-space suffix before `TrimEnd` changes nothing. */
  lemma {:induction false} TrimEndSkips(s: string, j: nat)
    requires j <= |s| && AllSpace(s[j..])
    ensures TrimEnd(s) == TrimEnd(s[..j])
    decreases |s| - j
  {
    if j < |s| {
      assert IsSpace(s[|s| - 1]);
      assert s[..|s| - 1][j..] == s[j..|s| - 1];
      TrimEndSkips(s[..|s| - 1], j);
      assert s[..|s| - 1][..j] == s[..j];
    } else {
      assert s[..j] == s;
    }
  }

  /** The number of UTF-16 code units that encode `c`: two for a character
      outside the Basic Multilingual Plane (a surrogate pair), else one. */
  function CodeUnits(c: char): nat {
    if c as int > 0xFFFF then 2 else 1
  }

  /** JavaScript's `s.length`, which the schemas' `minlength` and
      `maxlength` validators compare: UTF-16 code units, not characters. */
  function JsLength(s: string): (n: nat)
    ensures |s| <= n <= 2 * |s|
  {
    if s == [] then 0 else CodeUnits(s[0]) + JsLength(s[1..])
  }

  /** On text inside the Basic Multilingual Plane, `length` counts characters. */
  lemma {:induction false} JsLengthOfBmp(s: string)
    requires forall k :: 0 <= k < |s| ==> s[k] as int <= 0xFFFF
    ensures JsLength(s) == |s|
  {
    if s != [] {
      JsLengthOfBmp(s[1..]);
    }
  }

  /** Two emoji are two characters but four code units. */
  lemma TwoEmojiAreFourUnits()
    ensures |"\U{1F355}\U{1F355}"| == 2 && JsLength("\U{1F355}\U{1F355}") == 4
  {
    assert "\U{1F355}\U{1F355}"[1..] == "\U{1F355}";
    assert "\U{1F355}"[1..] == "";
  }

  /** `s.startsWith(prefix)`. */
  predicate StartsWith(s: string, prefix: string) {
    |prefix| <= |s| && s[..|prefix|] == prefix
  }

  /** The schemas' e-mail pattern `^\S+@\S+\.\S+$`: no white space at all,
      an `@` after at least one character, then at least one character,
      a `.`, and at least one more character. */
  function MatchesEmail(s: string): (r: bool)
    ensures r ==> |s| >= 5 && '@' in s && '.' in s
  {
    && (forall k :: 0 <= k < |s| ==> !IsSpace(s[k]))
    && exists i, j :: 0 < i && i + 1 < j < |s| - 1 && s[i] == '@' && s[j] == '.'
  }

  /** The schemas' phone pattern `^\d{10}$`: exactly ten ASCII digits. */
  function MatchesPhone(s: string): (r: bool)
    ensures r ==> JsLength(s) == 10
  {
    if |s| == 10 && forall k :: 0 <= k < |s| ==> '0' <= s[k] <= '9' then
      JsLengthOfBmp(s);
      true
    else
      false
  }

  /** Stand-in for bcrypt: a salted hash in `$2b$` format. The model keeps
      the two properties the application relies on: the digest never
      equals the password, and equal digests mean equal passwords. bcrypt
      has the second only for passwords of at most 72 bytes, since it reads
      no further, and its digests are always 60 characters long. */
  const HashPrefix: string := "$2b$10$"

  function Hash(password: string): (digest: string)
    ensures |digest| > |password|
  {
    HashPrefix + password
  }

  lemma HashInjective(p: string, q: string)
    ensures Hash(p) == Hash(q) <==> p == q
  {
    if Hash(p) == Hash(q) {
      assert p == Hash(p)[|HashPrefix|..];
    }
  }
}
