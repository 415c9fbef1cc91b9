/** Small value types and string helpers shared by the rest of the model. */
module Common {

  /** Python's `None` or a value. */
  datatype Option<+T> = None | Some(value: T) {
    function GetOr(default: T): T {
      match this
      case Some(v) => v
      case None => default
    }
  }

  /** A computation that either yields a value or raises with a message. */
  datatype Result<+T> = Ok(value: T) | Err(error: string)

  /** Python truthiness of an optional string: `None` and `""` are false. */
  predicate Truthy(s: Option<string>) {
    s.Some? && s.value != ""
  }

  /** `needle` occurs in `hay` starting at index `i`. */
  predicate OccursAt(needle: string, hay: string, i: nat) {
    i + |needle| <= |hay| && hay[i..i + |needle|] == needle
  }

  /** `needle in hay` on Python strings. */
  predicate IsSubstring(needle: string, hay: string) {
    exists i: nat | i <= |hay| :: OccursAt(needle, hay, i)
  }

  lemma PrefixIsSubstring(a: string, b: string)
    ensures IsSubstring(a, a + b)
  {
    assert OccursAt(a, a + b, 0);
  }

  lemma SuffixIsSubstring(a: string, b: string)
    ensures IsSubstring(b, a + b)
  {
    assert OccursAt(b, a + b, |a|);
  }

  lemma SubstringTransitive(a: string, b: string, c: string)
    requires IsSubstring(a, b) && IsSubstring(b, c)
    ensures IsSubstring(a, c)
  {
    var i: nat :| i <= |b| && OccursAt(a, b, i);
    var j: nat :| j <= |c| && OccursAt(b, c, j);
    assert c[j..j + |b|] == b;
    forall k | 0 <= k < |a|
      ensures c[j + i..j + i + |a|][k] == a[k]
    {
      assert c[j + i + k] == c[j..j + |b|][i + k] == b[i + k] == b[i..i + |a|][k];
    }
    assert OccursAt(a, c, j + i);
  }

  /** ASCII case folding of one character (Python's `str.lower` on ASCII). */
  function LowerChar(c: char): char {
    if 'A' <= c <= 'Z' then (c as int + 32) as char else c
  }

  function Lower(s: string): (r: string)
    ensures |r| == |s|
    ensures forall i :: 0 <= i < |s| ==> r[i] == LowerChar(s[i])
  {
    seq(|s|, i requires 0 <= i < |s| => LowerChar(s[i]))
  }

  lemma LowerAppend(a: string, b: string)
    ensures Lower(a + b) == Lower(a) + Lower(b)
  {
  }

  /** Index of the last occurrence of `c` in `s` (Python's `str.rfind`, with `None` for -1). */
  function LastIndex(s: string, c: char): (r: Option<nat>)
    ensures r.Some? ==> r.value < |s| && s[r.value] == c
    ensures r.Some? ==> forall j :: r.value < j < |s| ==> s[j] != c
    ensures r.None? <==> forall j :: 0 <= j < |s| ==> s[j] != c
  {
    if s == [] then None
    else if s[|s| - 1] == c then Some(|s| - 1)
    else LastIndex(s[..|s| - 1], c)
  }

  /** The index that the last-occurrence contract pins down is unique. */
  lemma LastIndexAt(s: string, c: char, k: nat)
    requires k < |s| && s[k] == c
    requires forall j :: k < j < |s| ==> s[j] != c
    ensures LastIndex(s, c) == Some(k)
  {
  }

  /** Decimal rendering of a natural number (Python's `str(n)` for `n >= 0`). */
  function NatToString(n: nat): (r: string)
    ensures |r| > 0
    ensures forall i :: 0 <= i < |r| ==> '0' <= r[i] <= '9'
    decreases n
  {
    var d := ['0' + (n % 10) as char];
    if n < 10 then d else NatToString(n / 10) + d
  }

  /** `str(n)` for any integer. */
  function IntToString(n: int): string {
    if n < 0 then "-" + NatToString(-n) else NatToString(n)
  }

  // ----- Python's repr of a text -----

  /** The quote `repr` puts around a text: a double quote when the text holds a single quote and no double quote. */
  function ReprQuote(s: string): char {
    if '\'' in s && '"' !in s then '"' else '\''
  }

  /** A lower-case hexadecimal digit. */
  function HexDigit(n: nat): char
    requires n < 16
  {
    "0123456789abcdef"[n]
  }

  /** The characters `repr` writes as `\xhh`: the control characters other than tab, newline and return, and DEL. */
  predicate HexEscaped(c: char) {
    (c < ' ' && c != '\t' && c != '\n' && c != '\r') || c as int == 0x7f
  }

  /** How `repr` writes one character inside quotes `q`. */
  function ReprChar(c: char, q: char): string {
    if c == q || c == '\\' then ['\\', c]
    else if c == '\t' then "\\t"
    else if c == '\n' then "\\n"
    else if c == '\r' then "\\r"
    else if HexEscaped(c) then "\\x" + [HexDigit(c as nat / 16), HexDigit(c as nat % 16)]
    else [c]
  }

  function ReprBody(s: string, q: char): string {
    if s == [] then [] else ReprChar(s[0], q) + ReprBody(s[1..], q)
  }

  /** `repr(s)`, for a text whose characters outside ASCII are all printable. */
  function Repr(s: string): (r: string)
    ensures |r| >= 2 && r[0] == ReprQuote(s) && r[|r| - 1] == ReprQuote(s)
  {
    [ReprQuote(s)] + ReprBody(s, ReprQuote(s)) + [ReprQuote(s)]
  }

  /** The value of a lower-case hexadecimal digit. */
  function HexValue(c: char): nat {
    if '0' <= c <= '9' then c as nat - '0' as nat
    else if 'a' <= c <= 'f' then c as nat - 'a' as nat + 10
    else 0
  }

  /** Reading back what `repr` writes between the quotes. */
  function Unescape(s: string): string
    decreases |s|
  {
    if s == [] then []
    else if s[0] == '\\' && |s| >= 2 then
      if s[1] == 't' then ['\t'] + Unescape(s[2..])
      else if s[1] == 'n' then ['\n'] + Unescape(s[2..])
      else if s[1] == 'r' then ['\r'] + Unescape(s[2..])
      else if s[1] == 'x' && |s| >= 4 then [(HexValue(s[2]) * 16 + HexValue(s[3])) as char] + Unescape(s[4..])
      else [s[1]] + Unescape(s[2..])
    else [s[0]] + Unescape(s[1..])
  }

  lemma HexRoundTrip(n: nat)
    requires n < 128
    ensures HexValue(HexDigit(n / 16)) * 16 + HexValue(HexDigit(n % 16)) == n
  {
    var (hi, lo) := (n / 16, n % 16);
    assert HexValue(HexDigit(hi)) == hi by {
      assert hi < 8;
      assert HexDigit(hi) == '0' + hi as char;
    }
    assert HexValue(HexDigit(lo)) == lo by {
      if lo < 10 {
        assert HexDigit(lo) == '0' + lo as char;
      } else {
        assert HexDigit(lo) == 'a' + (lo - 10) as char;
      }
    }
  }

  lemma UnescapeChar(c: char, q: char, rest: string)
    requires q == '\'' || q == '"'
    ensures Unescape(ReprChar(c, q) + rest) == [c] + Unescape(rest)
  {
    var e := ReprChar(c, q);
    if |e| == 2 {
      assert (e + rest)[2..] == rest;
    } else if |e| == 4 {
      assert (e + rest)[4..] == rest;
      HexRoundTrip(c as nat);
    } else {
      assert (e + rest)[1..] == rest;
    }
  }

  lemma {:induction false} UnescapeBody(s: string, q: char)
    requires q == '\'' || q == '"'
    ensures Unescape(ReprBody(s, q)) == s
  {
    if s != [] {
      UnescapeChar(s[0], q, ReprBody(s[1..], q));
      UnescapeBody(s[1..], q);
    }
  }

  /** What `repr` writes names the text it was given: reading it back gives the text. */
  lemma ReprRoundTrip(s: string)
    ensures var r := Repr(s); Unescape(r[1..|r| - 1]) == s
  {
    var r := Repr(s);
    assert r[1..|r| - 1] == ReprBody(s, ReprQuote(s));
    UnescapeBody(s, ReprQuote(s));
  }

  /** A text with no quote, backslash or control character is written as it is, in single quotes. */
  lemma {:induction false} ReprPlain(s: string)
    requires forall i :: 0 <= i < |s| ==> s[i] != '\'' && s[i] != '\\' && s[i] >= ' ' && s[i] as int != 0x7f
    ensures Repr(s) == "'" + s + "'"
  {
    PlainBody(s, '\'');
  }

  lemma {:induction false} PlainBody(s: string, q: char)
    requires forall i :: 0 <= i < |s| ==> s[i] != q && s[i] != '\\' && s[i] >= ' ' && s[i] as int != 0x7f
    ensures ReprBody(s, q) == s
  {
    if s != [] {
      PlainBody(s[1..], q);
      assert s == [s[0]] + s[1..];
    }
  }
}
