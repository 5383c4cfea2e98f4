// The handful of java.lang.String operations the modelled code relies on,
// written out so that their edge cases are explicit.

module JavaText {
  import opened Wrappers

  /** `String.trim()` strips every character whose code is at most U+0020. */
  predicate IsTrimChar(c: char) { c <= ' ' }

  function TrimStart(s: string): string
  {
    if |s| > 0 && IsTrimChar(s[0]) then TrimStart(s[1..]) else s
  }

  function TrimEnd(s: string): string
  {
    if |s| > 0 && IsTrimChar(s[|s| - 1]) then TrimEnd(s[..|s| - 1]) else s
  }

  /** Java's `s.trim()`. */
  function Trim(s: string): string
  {
    TrimEnd(TrimStart(s))
  }

  /** No character that `trim()` would strip at either end. */
  predicate IsTrimmed(s: string)
  {
    s == [] || (!IsTrimChar(s[0]) && !IsTrimChar(s[|s| - 1]))
  }

  /** Every character is one that `trim()` strips: `s.trim().isEmpty()`. */
  predicate AllTrimChars(s: string)
  {
    forall i :: 0 <= i < |s| ==> IsTrimChar(s[i])
  }

  /** Java's `s.startsWith(p)`. */
  predicate StartsWith(s: string, p: string)
  {
    |p| <= |s| && s[..|p|] == p
  }

  /** Java's `s.endsWith(p)`. */
  predicate EndsWith(s: string, p: string)
  {
    |p| <= |s| && s[|s| - |p|..] == p
  }

  /** Java's `s.contains(p)`. */
  predicate Contains(s: string, p: string)
    decreases |s|
  {
    StartsWith(s, p) || (|s| > 0 && Contains(s[1..], p))
  }

  /** Java's `s.replace(p, rep)`: every non-overlapping occurrence, scanning from the left. */
  function ReplaceAll(s: string, p: string, rep: string): string
    requires |p| > 0
    decreases |s|
  {
    if |s| < |p| then s
    else if s[..|p|] == p then rep + ReplaceAll(s[|p|..], p, rep)
    else [s[0]] + ReplaceAll(s[1..], p, rep)
  }

  /** ASCII case folding, the part of `equalsIgnoreCase` the modelled inputs exercise. */
  function LowerAscii(c: char): char
  {
    if 'A' <= c <= 'Z' then (c as int + 32) as char else c
  }

  /** Java's `a.equalsIgnoreCase(b)` restricted to ASCII case folding. */
  predicate EqualsIgnoreCase(a: string, b: string)
  {
    |a| == |b| && forall i :: 0 <= i < |a| ==> LowerAscii(a[i]) == LowerAscii(b[i])
  }

  /** `String.join(sep, parts)`. */
  function Join(parts: seq<string>, sep: string): string
  {
    if |parts| == 0 then ""
    else if |parts| == 1 then parts[0]
    else parts[0] + sep + Join(parts[1..], sep)
  }

  function DigitChar(d: nat): char
    requires d < 10
  {
    "0123456789"[d]
  }

  function NatToString(n: nat): string
  {
    if n < 10 then [DigitChar(n)] else NatToString(n / 10) + [DigitChar(n % 10)]
  }

  /** `Long.toString(i)` and string concatenation of a number. */
  function IntToString(i: int): string
  {
    if i < 0 then "-" + NatToString(-i) else NatToString(i)
  }

  lemma DigitCharInjective(a: nat, b: nat)
    requires a < 10 && b < 10 && DigitChar(a) == DigitChar(b)
    ensures a == b
  {
  }

  /** Every character of a number's decimal form is a digit, and there is at least
      one. */
  lemma {:induction false} NatToStringDigits(n: nat)
    ensures |NatToString(n)| >= 1
    ensures forall k :: 0 <= k < |NatToString(n)| ==> '0' <= NatToString(n)[k] <= '9'
  {
    if n >= 10 {
      NatToStringDigits(n / 10);
    }
  }

  /** Different numbers have different decimal forms. */
  lemma {:induction false} NatToStringInjective(a: nat, b: nat)
    requires NatToString(a) == NatToString(b)
    ensures a == b
  {
    NatToStringDigits(a / 10);
    NatToStringDigits(b / 10);
    if a < 10 && b < 10 {
      DigitCharInjective(a, b);
    } else if a >= 10 && b >= 10 {
      var sa := NatToString(a);
      assert sa[|sa| - 1] == DigitChar(a % 10);
      assert NatToString(b)[|sa| - 1] == DigitChar(b % 10);
      DigitCharInjective(a % 10, b % 10);
      assert NatToString(a / 10) == sa[..|sa| - 1] == NatToString(b / 10);
      NatToStringInjective(a / 10, b / 10);
    }
  }

  /** A negative number's form is a dash followed by its magnitude's. */
  lemma NegativeForm(i: int)
    requires i < 0
    ensures IntToString(i)[0] == '-' && IntToString(i)[1..] == NatToString(-i)
  {
  }

  /** Different numbers print differently. */
  lemma {:induction false} IntToStringInjective(a: int, b: int)
    requires a != b
    ensures IntToString(a) != IntToString(b)
  {
    if a < 0 && b < 0 {
      NegativeForm(a);
      NegativeForm(b);
      if IntToString(a) == IntToString(b) {
        NatToStringInjective(-a, -b);
      }
    } else if a >= 0 && b >= 0 {
      if NatToString(a) == NatToString(b) {
        NatToStringInjective(a, b);
      }
    } else if a < 0 {
      NegativeForm(a);
      NatToStringDigits(b);
    } else {
      NegativeForm(b);
      NatToStringDigits(a);
    }
  }

  /** String concatenation `prefix + x` where `x` may be null: Java writes "null". */
  function ConcatNullable(prefix: string, x: Option<string>): string
  {
    prefix + OrElse(x, "null")
  }

  // ---------------------------------------------------------------------------
  // Facts about trim

  lemma {:induction false} TrimStartSuffix(s: string)
    ensures |TrimStart(s)| <= |s| && TrimStart(s) == s[|s| - |TrimStart(s)|..]
    ensures TrimStart(s) == [] || !IsTrimChar(TrimStart(s)[0])
    ensures AllTrimChars(s[..|s| - |TrimStart(s)|])
    decreases |s|
  {
    if |s| > 0 && IsTrimChar(s[0]) {
      TrimStartSuffix(s[1..]);
      var k := |s| - |TrimStart(s)|;
      assert s[..k] == [s[0]] + s[1..][..k - 1];
    }
  }

  lemma {:induction false} TrimEndPrefix(s: string)
    ensures |TrimEnd(s)| <= |s| && TrimEnd(s) == s[..|TrimEnd(s)|]
    ensures TrimEnd(s) == [] || !IsTrimChar(TrimEnd(s)[|TrimEnd(s)| - 1])
    ensures AllTrimChars(s[|TrimEnd(s)|..])
    decreases |s|
  {
    if |s| > 0 && IsTrimChar(s[|s| - 1]) {
      var t := s[..|s| - 1];
      TrimEndPrefix(t);
      var k := |TrimEnd(s)|;
      assert t[..k] == s[..k];
      assert s[k..] == t[k..] + [s[|s| - 1]];
    }
  }

  /** TrimEnd keeps a first character that trim would not strip. */
  lemma {:induction false} TrimEndKeepsHead(s: string)
    requires |s| > 0 && !IsTrimChar(s[0])
    ensures |TrimEnd(s)| > 0 && TrimEnd(s)[0] == s[0]
    decreases |s|
  {
    if IsTrimChar(s[|s| - 1]) {
      assert |s| > 1;
      TrimEndKeepsHead(s[..|s| - 1]);
    }
  }

  /** The result of trim has nothing left to strip, and it is the input itself when
      there was nothing to strip. */
  lemma TrimIsTrimmed(s: string)
    ensures IsTrimmed(Trim(s))
    ensures IsTrimmed(s) ==> Trim(s) == s
  {
    var a := TrimStart(s);
    TrimStartSuffix(s);
    TrimEndPrefix(a);
    if |a| > 0 {
      TrimEndKeepsHead(a);
    }
    if IsTrimmed(s) && |s| > 0 {
      assert TrimStart(s) == s;
      assert TrimEnd(s) == s;
    }
  }

  /** `s.trim().isEmpty()` exactly when every character of `s` is one trim strips. */
  lemma TrimEmptyIffAllTrimChars(s: string)
    ensures Trim(s) == [] <==> AllTrimChars(s)
  {
    var a := TrimStart(s);
    TrimStartSuffix(s);
    TrimEndPrefix(a);
    if |a| > 0 {
      TrimEndKeepsHead(a);
      assert !IsTrimChar(s[|s| - |a|]);
    } else {
      assert s[..|s| - |a|] == s;
    }
  }

  /** A string whose first character trim keeps is not blank. */
  lemma VisibleHeadNotBlank(s: string)
    requires |s| > 0 && !IsTrimChar(s[0])
    ensures Trim(s) != []
  {
    TrimEmptyIffAllTrimChars(s);
  }

  // ---------------------------------------------------------------------------
  // Facts about replace

  /** Replacing a pattern that does not occur leaves the string unchanged. */
  lemma {:induction false} ReplaceAbsent(s: string, p: string, rep: string)
    requires |p| > 0 && !Contains(s, p)
    ensures ReplaceAll(s, p, rep) == s
    decreases |s|
  {
    if |s| >= |p| {
      assert s[..|p|] != p;
      ReplaceAbsent(s[1..], p, rep);
    }
  }

  /** Stripping a prefix with `replace(p, "")` gives back the rest when the rest
      does not contain the prefix itself. */
  lemma StripPrefix(p: string, t: string)
    requires |p| > 0 && !Contains(t, p)
    ensures ReplaceAll(p + t, p, "") == t
  {
    assert (p + t)[..|p|] == p;
    assert (p + t)[|p|..] == t;
    ReplaceAbsent(t, p, "");
  }

}
