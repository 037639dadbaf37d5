/**
 * Properties of the C string model: `strtoll` reads back a decimal rendering
 * (saturating outside the `long long` range), `strtok` splits a joined list
 * back into its tokens, and the NUL and white-space scans behave on
 * concatenations as the loader relies on.
 */
module CStringLemmas {
  import opened CStrings

  /** A string of `sep`-separated tokens. */
  function Join(ts: seq<string>, sep: char): (r: string)
    ensures ts != [] && ts[0] != [] ==> r != [] && r[0] == ts[0][0]
  {
    if ts == [] then []
    else if |ts| == 1 then ts[0]
    else ts[0] + [sep] + Join(ts[1..], sep)
  }

  /** Tokens separated by arbitrary gaps: `gaps[k]` lies between `ts[k]` and `ts[k + 1]`. */
  function JoinRuns(ts: seq<string>, gaps: seq<string>): (r: string)
    requires |ts| > 0 && |gaps| == |ts| - 1
    ensures ts[0] != [] ==> r != [] && r[0] == ts[0][0]
    decreases |ts|
  {
    if |ts| == 1 then ts[0] else ts[0] + gaps[0] + JoinRuns(ts[1..], gaps[1..])
  }

  /** A gap between fields: a non-empty run of delimiters. */
  predicate IsGap(g: string, delims: set<char>) {
    g != [] && forall i :: 0 <= i < |g| ==> g[i] in delims
  }

  /** Appending a digit multiplies the value read so far by ten and adds the digit. */
  lemma {:induction false} DigitsValueSnoc(s: string, c: char, acc: nat)
    requires forall i :: 0 <= i < |s| ==> IsDigit(s[i])
    requires IsDigit(c)
    ensures DigitsValue(s + [c], acc) == DigitsValue(s, acc) * 10 + (c as int - '0' as int)
    decreases |s|
  {
    if s == [] {
      assert [c][1..] == [];
    } else {
      assert (s + [c])[0] == s[0] && (s + [c])[1..] == s[1..] + [c];
      DigitsValueSnoc(s[1..], c, acc * 10 + (s[0] as int - '0' as int));
    }
  }

  /** Reading the digits of `Decimal(n)` gives `n`. */
  lemma {:induction false} DigitsOfDecimal(n: nat)
    ensures DigitsValue(Decimal(n), 0) == n
  {
    if n < 10 {
      assert Decimal(n)[1..] == [];
    } else {
      DigitsOfDecimal(n / 10);
      DigitsValueSnoc(Decimal(n / 10), ('0' as int + n % 10) as char, 0);
    }
  }

  /**
   * `strtoll` reads back a decimal number, and a negated one, saturating at
   * LLONG_MAX / LLONG_MIN outside the range (how a `length=` value is read).
   */
  lemma StrToLLDecimal(n: nat)
    ensures StrToLL(Decimal(n)) == Clamp(n)
    ensures StrToLL(['-'] + Decimal(n)) == Clamp(0 - n)
    ensures n <= LLongMax ==> StrToLL(Decimal(n)) == n
  {
    var d := Decimal(n);
    assert !IsSpace(d[0]) && d[0] != '-' && d[0] != '+';
    assert SkipSpace(d) == d;
    var m := ['-'] + d;
    assert !IsSpace(m[0]) && m[1..] == d;
    assert SkipSpace(m) == m;
    DigitsOfDecimal(n);
  }

  /** Leading white space is skipped: it never changes the scan after it. */
  lemma SpaceRunAppend(sp: string, s: string)
    requires forall i :: 0 <= i < |sp| ==> IsSpace(sp[i])
    ensures SpaceRun(sp + s) == |sp| + SpaceRun(s)
    ensures SkipSpace(sp + s) == SkipSpace(s)
  {
    SpaceRunPrefix(sp, s);
    assert (sp + s)[|sp| + SpaceRun(s)..] == s[SpaceRun(s)..];
  }

  /** Leading white space lengthens the run of white space by its own length. */
  lemma {:induction false} SpaceRunPrefix(sp: string, s: string)
    requires forall i :: 0 <= i < |sp| ==> IsSpace(sp[i])
    ensures SpaceRun(sp + s) == |sp| + SpaceRun(s)
    decreases |sp|
  {
    if sp == [] {
      assert sp + s == s;
    } else {
      assert (sp + s)[0] == sp[0] && IsSpace(sp[0]);
      assert (sp + s)[1..] == sp[1..] + s;
      SpaceRunPrefix(sp[1..], s);
    }
  }

  /** `strtoll` ignores leading white space. */
  lemma StrToLLSkipsSpace(sp: string, s: string)
    requires forall i :: 0 <= i < |sp| ==> IsSpace(sp[i])
    ensures StrToLL(sp + s) == StrToLL(s)
  {
    SpaceRunAppend(sp, s);
  }

  /** A NUL-free prefix is kept whole by the C string cut. */
  lemma {:induction false} CStrAppend(a: string, b: string)
    requires forall i :: 0 <= i < |a| ==> a[i] != '\0'
    ensures CStr(a + b) == a + CStr(b)
    decreases |a|
  {
    if a == [] {
      assert a + b == b;
    } else {
      assert (a + b)[0] == a[0] && (a + b)[1..] == a[1..] + b;
      CStrAppend(a[1..], b);
      assert a == [a[0]] + a[1..];
    }
  }

  /** A NUL-free buffer is its own C string. */
  lemma CStrWhole(a: string)
    requires forall i :: 0 <= i < |a| ==> a[i] != '\0'
    ensures CStr(a) == a
  {
    CStrAppend(a, []);
    assert a + [] == a;
  }

  /** The first token of `t + rest` is `t` when `rest` is empty or starts with a delimiter. */
  lemma {:induction false} TokenLengthOfToken(t: string, rest: string, delims: set<char>)
    requires IsToken(t, delims)
    requires rest == [] || rest[0] in delims
    ensures TokenLength(t + rest, delims) == |t|
    decreases |t|
  {
    assert (t + rest)[0] == t[0] && (t + rest)[1..] == t[1..] + rest;
    if |t| > 1 {
      TokenLengthOfToken(t[1..], rest, delims);
    }
  }

  /** `strtok` splits a joined list back into its tokens. */
  lemma TokensOfJoin(ts: seq<string>, sep: char, delims: set<char>)
    requires sep in delims
    requires forall k :: 0 <= k < |ts| ==> IsToken(ts[k], delims)
    ensures Tokens(Join(ts, sep), delims) == ts
  {
    if ts != [] {
      var gaps := seq(|ts| - 1, _ => [sep]);
      JoinAsRuns(ts, sep);
      forall k | 0 <= k < |gaps|
        ensures IsGap(gaps[k], delims)
      {
        assert gaps[k] == [sep];
      }
      TokensOfRuns(ts, gaps, delims);
    }
  }

  /** Joining with one separator is joining with one-character gaps. */
  lemma {:induction false} JoinAsRuns(ts: seq<string>, sep: char)
    requires ts != []
    ensures Join(ts, sep) == JoinRuns(ts, seq(|ts| - 1, _ => [sep]))
    decreases |ts|
  {
    if |ts| > 1 {
      var gaps := seq(|ts| - 1, _ => [sep]);
      assert gaps[0] == [sep];
      assert gaps[1..] == seq(|ts[1..]| - 1, _ => [sep]);
      JoinAsRuns(ts[1..], sep);
    }
  }

  /** A delimiter appended after a token's text does not lengthen the token. */
  lemma {:induction false} TokenLengthSnoc(s: string, d: char, delims: set<char>)
    requires d in delims
    ensures TokenLength(s + [d], delims) == TokenLength(s, delims)
    decreases |s|
  {
    if s != [] && s[0] !in delims {
      assert (s + [d])[0] == s[0] && (s + [d])[1..] == s[1..] + [d];
      TokenLengthSnoc(s[1..], d, delims);
    }
  }

  /** A trailing delimiter (the newline `fgets` keeps) adds no token. */
  lemma {:induction false} TokensSnocDelim(s: string, d: char, delims: set<char>)
    requires d in delims
    ensures Tokens(s + [d], delims) == Tokens(s, delims)
    decreases |s|
  {
    if s == [] {
      assert ([] + [d])[1..] == [];
    } else if s[0] in delims {
      assert (s + [d])[1..] == s[1..] + [d];
      TokensSnocDelim(s[1..], d, delims);
    } else {
      var n := TokenLength(s, delims);
      TokenLengthSnoc(s, d, delims);
      assert (s + [d])[..n] == s[..n] && (s + [d])[n..] == s[n..] + [d];
      TokensSnocDelim(s[n..], d, delims);
    }
  }

  /** Leading delimiters are skipped: they add no token. */
  lemma {:induction false} TokensSkipDelims(g: string, rest: string, delims: set<char>)
    requires forall i :: 0 <= i < |g| ==> g[i] in delims
    ensures Tokens(g + rest, delims) == Tokens(rest, delims)
    decreases |g|
  {
    if g == [] {
      assert g + rest == rest;
    } else {
      assert (g + rest)[0] == g[0] && g[0] in delims;
      assert (g + rest)[1..] == g[1..] + rest;
      TokensSkipDelims(g[1..], rest, delims);
    }
  }

  /** `strtok` splits tokens separated by any runs of delimiters back into those tokens. */
  lemma {:induction false} TokensOfRuns(ts: seq<string>, gaps: seq<string>, delims: set<char>)
    requires |ts| > 0 && |gaps| == |ts| - 1
    requires forall k :: 0 <= k < |ts| ==> IsToken(ts[k], delims)
    requires forall k :: 0 <= k < |gaps| ==> IsGap(gaps[k], delims)
    ensures Tokens(JoinRuns(ts, gaps), delims) == ts
    decreases |ts|
  {
    if |ts| == 1 {
      TokenLengthOfToken(ts[0], [], delims);
      assert ts[0] + [] == ts[0];
      assert ts[0][..|ts[0]|] == ts[0] && ts[0][|ts[0]|..] == [];
    } else {
      var t, g, j := ts[0], gaps[0], JoinRuns(ts[1..], gaps[1..]);
      var s := t + g + j;
      assert s == t + (g + j);
      assert IsGap(g, delims);
      TokenLengthOfToken(t, g + j, delims);
      assert s[..|t|] == t && s[|t|..] == g + j;
      TokensSkipDelims(g, j, delims);
      TokensOfRuns(ts[1..], gaps[1..], delims);
      assert ts == [t] + ts[1..];
    }
  }

  /** Joining NUL-free tokens with NUL-free gaps gives a NUL-free string. */
  lemma {:induction false} JoinRunsNulFree(ts: seq<string>, gaps: seq<string>)
    requires |ts| > 0 && |gaps| == |ts| - 1
    requires forall k, i :: 0 <= k < |ts| && 0 <= i < |ts[k]| ==> ts[k][i] != '\0'
    requires forall k, i :: 0 <= k < |gaps| && 0 <= i < |gaps[k]| ==> gaps[k][i] != '\0'
    ensures forall i :: 0 <= i < |JoinRuns(ts, gaps)| ==> JoinRuns(ts, gaps)[i] != '\0'
    decreases |ts|
  {
    if |ts| > 1 {
      JoinRunsNulFree(ts[1..], gaps[1..]);
      var t, g, j := ts[0], gaps[0], JoinRuns(ts[1..], gaps[1..]);
      forall i | 0 <= i < |t + g + j|
        ensures (t + g + j)[i] != '\0'
      {
        if i < |t| {
          assert (t + g + j)[i] == ts[0][i];
        } else if i < |t| + |g| {
          assert (t + g + j)[i] == gaps[0][i - |t|];
        } else {
          assert (t + g + j)[i] == j[i - |t| - |g|];
        }
      }
    }
  }

  /** Joining NUL-free tokens with a non-NUL separator gives a NUL-free string. */
  lemma {:induction false} JoinNulFree(ts: seq<string>, sep: char)
    requires sep != '\0'
    requires forall k, i :: 0 <= k < |ts| && 0 <= i < |ts[k]| ==> ts[k][i] != '\0'
    ensures forall i :: 0 <= i < |Join(ts, sep)| ==> Join(ts, sep)[i] != '\0'
    decreases |ts|
  {
    if |ts| > 1 {
      JoinNulFree(ts[1..], sep);
      var t, j := ts[0], Join(ts[1..], sep);
      forall i | 0 <= i < |t + [sep] + j|
        ensures (t + [sep] + j)[i] != '\0'
      {
        if i < |t| {
          assert (t + [sep] + j)[i] == ts[0][i];
        } else if i > |t| {
          assert (t + [sep] + j)[i] == j[i - |t| - 1];
        }
      }
    }
  }
}
