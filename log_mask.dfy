/**
 * The masking `format_url` applies before it logs a URL:
 * `re.sub(r"siteAuthenticationKey=[^\&]*", "siteAuthenticationKey=XXX", url)`.
 * The regular expression is scanned left to right; where it matches, the key
 * and the longest run of non-`&` characters after it are replaced, and the
 * scan resumes after the match.
 */
module LogMask {

  /** The literal prefix of the pattern. */
  const KEY: string := "siteAuthenticationKey="

  /** What every match is replaced with. */
  const MASKED: string := KEY + "XXX"

  /** The length of the longest prefix of `s` without `&`: what `[^\&]*` consumes. */
  function Run(s: string): (n: nat)
    ensures n <= |s| && '&' !in s[..n]
    ensures n == |s| || s[n] == '&'
  {
    if s == [] || s[0] == '&' then 0 else 1 + Run(s[1..])
  }

  /** The `re.sub` call. */
  function Mask(s: string): string
    decreases |s|
  {
    if KEY <= s then
      var tail := s[|KEY|..];
      MASKED + Mask(tail[Run(tail)..])
    else if s == [] then []
    else [s[0]] + Mask(s[1..])
  }

  /** The key occurs at position `i` of `s`. */
  predicate KeyAt(s: string, i: int)
  {
    0 <= i && i + |KEY| <= |s| && s[i..i + |KEY|] == KEY
  }

  /** The value the pattern would take after the key at position `i`. */
  function ValueAt(s: string, i: int): string
    requires KeyAt(s, i)
  {
    var tail := s[i + |KEY|..];
    tail[..Run(tail)]
  }

  /** The number of positions at which the key occurs. */
  function Occurrences(s: string): nat
  {
    if s == [] then 0 else (if KEY <= s then 1 else 0) + Occurrences(s[1..])
  }

  /** A prefix shorter than the key that masking produces was already there. */
  lemma {:induction false} ShortPrefixSurvives(p: string, u: string)
    requires |p| < |KEY| && p <= Mask(u)
    ensures p <= u
    decreases |u|
  {
    if KEY <= u {
      assert p == Mask(u)[..|p|] == KEY[..|p|] == u[..|p|];
    } else if u != [] && p != [] {
      assert Mask(u) == [u[0]] + Mask(u[1..]);
      ShortPrefixSurvives(p[1..], u[1..]);
    }
  }

  /** Where the key does not start `s`, it does not start the masked text either. */
  lemma {:induction false} NoNewKeyAtFront(s: string)
    requires s != [] && !(KEY <= s)
    ensures Mask(s) == [s[0]] + Mask(s[1..])
    ensures !(KEY <= Mask(s))
  {
    var m := Mask(s);
    assert m == [s[0]] + Mask(s[1..]);
    if KEY <= m {
      var k := KEY[1..];
      assert k <= Mask(s[1..]);
      ShortPrefixSurvives(k, s[1..]);
      assert false;
    }
  }

  /** What follows a match: empty, or starting with `&`, stays so once masked. */
  lemma {:induction false} AfterRun(r: string)
    requires r == [] || r[0] == '&'
    ensures Mask(r) == [] || Mask(r)[0] == '&'
    ensures Run(Mask(r)) == 0
  {
    if r != [] {
      assert !(KEY <= r) by { assert KEY[0] != '&'; }
    }
  }

  /** `[^\&]*` consumes an `&`-free piece and stops at the `&` or the end after it. */
  lemma {:induction false} RunOfPlain(x: string, y: string)
    requires '&' !in x && (y == [] || y[0] == '&')
    ensures Run(x + y) == |x|
    decreases |x|
  {
    if x == [] {
      assert x + y == y;
    } else {
      assert (x + y)[1..] == x[1..] + y;
      RunOfPlain(x[1..], y);
    }
  }

  /** The masked block followed by masked text scans as one match with value `XXX`. */
  lemma {:induction false} MaskedBlock(r: string)
    requires r == [] || r[0] == '&'
    ensures var m := MASKED + Mask(r);
      KEY <= m && m[|KEY|..][Run(m[|KEY|..])..] == Mask(r) && Run(m[|KEY|..]) == 3
  {
    AfterRun(r);
    var mr := Mask(r);
    var m := MASKED + mr;
    assert m == KEY + ("XXX" + mr);
    assert m[..|KEY|] == KEY;
    var t := m[|KEY|..];
    assert t == "XXX" + mr;
    RunOfPlain("XXX", mr);
    assert t[3..] == mr;
  }

  /** Masking a second time changes nothing. */
  lemma {:induction false} MaskIdempotent(s: string)
    ensures Mask(Mask(s)) == Mask(s)
    decreases |s|
  {
    if KEY <= s {
      var tail := s[|KEY|..];
      var r := tail[Run(tail)..];
      MaskedBlock(r);
      MaskIdempotent(r);
    } else if s != [] {
      NoNewKeyAtFront(s);
      MaskIdempotent(s[1..]);
    }
  }

  /** Text in which the key never occurs is logged unchanged. */
  lemma {:induction false} MaskKeepsKeylessText(s: string)
    requires Occurrences(s) == 0
    ensures Mask(s) == s
    decreases |s|
  {
    if s != [] {
      MaskKeepsKeylessText(s[1..]);
    }
  }

  /** Dropping a prefix never adds occurrences. */
  lemma {:induction false} OccurrencesOfSuffix(s: string, k: nat)
    requires k <= |s|
    ensures Occurrences(s[k..]) <= Occurrences(s)
    decreases k
  {
    if k > 0 {
      OccurrencesOfSuffix(s[1..], k - 1);
      assert s[1..][k - 1..] == s[k..];
    }
  }

  /** Text without the letter `s` in front of other text adds no occurrence. */
  lemma {:induction false} OccurrencesAfterPlain(x: string, m: string)
    requires 's' !in x
    ensures Occurrences(x + m) == Occurrences(m)
    decreases |x|
  {
    if x != [] {
      var xm := x + m;
      assert xm[1..] == x[1..] + m;
      assert xm[0] == x[0] != 's';
      assert !(KEY <= xm) by { assert KEY[0] == 's'; }
      assert Occurrences(xm) == Occurrences(xm[1..]);
      OccurrencesAfterPlain(x[1..], m);
    } else {
      assert x + m == m;
    }
  }

  /** The masked block holds exactly one occurrence, at its start. */
  lemma {:induction false} OccurrencesOfMasked(m: string)
    ensures Occurrences(MASKED + m) == 1 + Occurrences(m)
  {
    var bm := MASKED + m;
    assert KEY <= bm;
    assert bm[1..] == MASKED[1..] + m;
    assert 's' !in MASKED[1..];
    OccurrencesAfterPlain(MASKED[1..], m);
  }

  /** Masking never adds an occurrence of the key. */
  lemma {:induction false} MaskNeverAddsKey(s: string)
    ensures Occurrences(Mask(s)) <= Occurrences(s)
    decreases |s|
  {
    if KEY <= s {
      var tail := s[|KEY|..];
      var r := tail[Run(tail)..];
      assert Mask(s) == MASKED + Mask(r);
      MaskNeverAddsKey(r);
      OccurrencesOfMasked(Mask(r));
      assert r == s[1..][|KEY| - 1 + Run(tail)..];
      OccurrencesOfSuffix(s[1..], |KEY| - 1 + Run(tail));
      assert Occurrences(s) == 1 + Occurrences(s[1..]);
    } else if s != [] {
      NoNewKeyAtFront(s);
      MaskNeverAddsKey(s[1..]);
    }
  }

  /** Occurrences and their values are unaffected by text put in front. */
  lemma {:induction false} KeyAtShift(pre: string, m: string, i: int)
    requires i >= |pre|
    ensures KeyAt(pre + m, i) <==> KeyAt(m, i - |pre|)
    ensures KeyAt(m, i - |pre|) ==> ValueAt(pre + m, i) == ValueAt(m, i - |pre|)
  {
    var j := i - |pre|;
    if 0 <= j <= |m| {
      assert (pre + m)[i..] == m[j..];
    }
    if 0 <= j && j + |KEY| <= |m| {
      assert (pre + m)[i..i + |KEY|] == m[j..j + |KEY|];
      assert (pre + m)[i + |KEY|..] == m[j + |KEY|..];
    }
  }

  /** No occurrence starts inside the masked block after its first character. */
  lemma {:induction false} NoKeyInsideBlock(m: string, i: int)
    requires 0 < i < |MASKED|
    ensures !KeyAt(MASKED + m, i)
  {
    var bm := MASKED + m;
    assert bm[i] == MASKED[i] != 's' == KEY[0];
    if i + |KEY| <= |bm| {
      assert bm[i..i + |KEY|][0] == bm[i];
    }
  }

  /** In masked text, every occurrence of the key carries the value `XXX`. */
  lemma {:induction false} MaskHidesEveryValue(s: string)
    ensures forall i :: KeyAt(Mask(s), i) ==> ValueAt(Mask(s), i) == "XXX"
    decreases |s|
  {
    var m := Mask(s);
    if KEY <= s {
      var tail := s[|KEY|..];
      var r := tail[Run(tail)..];
      var mr := Mask(r);
      assert m == MASKED + mr;
      MaskHidesEveryValue(r);
      MaskedBlock(r);
      forall i | KeyAt(m, i) ensures ValueAt(m, i) == "XXX" {
        if 0 < i < |MASKED| {
          NoKeyInsideBlock(mr, i);
        } else if i >= |MASKED| {
          KeyAtShift(MASKED, mr, i);
        }
      }
    } else if s != [] {
      NoNewKeyAtFront(s);
      MaskHidesEveryValue(s[1..]);
      var mr := Mask(s[1..]);
      forall i | KeyAt(m, i) ensures ValueAt(m, i) == "XXX" {
        if i > 0 {
          KeyAtShift([s[0]], mr, i);
        }
      }
    }
  }

  /** The text the debug log puts before the masked URL. */
  const LOG_PREFIX: string := "restx: HEMNA: url: "

  /** No occurrence of the key starts inside the log prefix. */
  lemma NoKeyInLogPrefix(m: string, i: int)
    requires 0 <= i < |LOG_PREFIX|
    ensures !KeyAt(LOG_PREFIX + m, i)
  {
    var line := LOG_PREFIX + m;
    if i + |KEY| <= |line| {
      assert line[i..i + |KEY|][0] == line[i];
      assert line[i..i + |KEY|][1] == line[i + 1];
    }
  }

  /**
   * The line `format_url` logs when debugging is on: the prefix and the masked
   * URL. Wherever the key occurs in it, its value is `XXX`.
   */
  function LogLine(url: string): (line: string)
    ensures forall i :: KeyAt(line, i) ==> ValueAt(line, i) == "XXX"
  {
    var m := Mask(url);
    MaskHidesEveryValue(url);
    assert forall i :: KeyAt(LOG_PREFIX + m, i) ==> ValueAt(LOG_PREFIX + m, i) == "XXX" by {
      forall i | KeyAt(LOG_PREFIX + m, i) ensures ValueAt(LOG_PREFIX + m, i) == "XXX" {
        if i < |LOG_PREFIX| {
          NoKeyInLogPrefix(m, i);
        } else {
          KeyAtShift(LOG_PREFIX, m, i);
        }
      }
    }
    LOG_PREFIX + m
  }
}
