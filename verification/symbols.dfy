/**
 * Instrument symbols: splitting on '-', recognising the strike token, and the
 * substring rule that decides whether a quote is filed as a call or a put.
 * Symbols are plain character strings; only ASCII '0'..'9' count as digits.
 */
module Symbols {

  /** Python's `symbol.split('-')`: the dash-free runs between dashes, empty runs included. */
  function Split(s: string): (parts: seq<string>)
    ensures |parts| >= 1
    ensures forall i :: 0 <= i < |parts| ==> '-' !in parts[i]
  {
    if |s| == 0 then [""]
    else
      var rest := Split(s[1..]);
      if s[0] == '-' then [""] + rest
      else [[s[0]] + rest[0]] + rest[1..]
  }

  /** `'-'.join(parts)`, the inverse of `Split`. */
  function Join(parts: seq<string>): string
    requires |parts| >= 1
  {
    if |parts| == 1 then parts[0] else parts[0] + "-" + Join(parts[1..])
  }

  /** Joining the pieces of a split gives the symbol back. */
  lemma {:induction false} JoinSplit(s: string)
    ensures Join(Split(s)) == s
  {
    if |s| > 0 {
      JoinSplit(s[1..]);
      var rest := Split(s[1..]);
      if s[0] != '-' {
        if |rest| > 1 {
          assert Join(rest) == rest[0] + "-" + Join(rest[1..]);
          assert Join(Split(s)) == ([s[0]] + rest[0]) + "-" + Join(rest[1..]);
        }
      }
    }
  }

  lemma {:induction false} SplitDashFree(p: string)
    requires '-' !in p
    ensures Split(p) == [p]
  {
    if |p| > 0 {
      assert p[0] != '-';
      assert '-' !in p[1..];
      SplitDashFree(p[1..]);
      assert [p[0]] + p[1..] == p;
    }
  }

  lemma {:induction false} SplitAfterDash(p: string, t: string)
    requires '-' !in p
    ensures Split(p + "-" + t) == [p] + Split(t)
  {
    if |p| == 0 {
      assert (p + "-" + t)[1..] == t;
    } else {
      assert (p + "-" + t)[1..] == p[1..] + "-" + t;
      SplitAfterDash(p[1..], t);
      assert [p[0]] + p[1..] == p;
    }
  }

  /** Splitting a joined list of dash-free pieces gives the pieces back. */
  lemma {:induction false} SplitJoin(parts: seq<string>)
    requires |parts| >= 1
    requires forall i :: 0 <= i < |parts| ==> '-' !in parts[i]
    ensures Split(Join(parts)) == parts
  {
    if |parts| == 1 {
      SplitDashFree(parts[0]);
    } else {
      SplitJoin(parts[1..]);
      SplitAfterDash(parts[0], Join(parts[1..]));
    }
  }

  predicate IsDigit(c: char) {
    '0' <= c <= '9'
  }

  predicate AllDigits(p: string) {
    forall i :: 0 <= i < |p| ==> IsDigit(p[i])
  }

  /** `part.isdigit() and len(part) > 2`. */
  predicate IsStrikeToken(p: string) {
    |p| > 2 && AllDigits(p)
  }

  /** `int(p)` for a string of decimal digits (leading zeros allowed). */
  function DigitsValue(p: string): nat
    requires AllDigits(p)
  {
    if |p| == 0 then 0
    else DigitsValue(p[..|p| - 1]) * 10 + (p[|p| - 1] as int - '0' as int)
  }

  /** `str(n)`: the decimal digits of `n`, without leading zeros except for "0" itself. */
  function Decimal(n: nat): (p: string)
    ensures AllDigits(p) && |p| >= 1
    ensures n > 0 ==> p[0] != '0'
    decreases n
  {
    if n < 10 then [('0' as int + n) as char]
    else Decimal(n / 10) + [('0' as int + n % 10) as char]
  }

  /** `int(str(n)) == n`. */
  lemma {:induction false} DigitsValueDecimal(n: nat)
    ensures DigitsValue(Decimal(n)) == n
    decreases n
  {
    if n >= 10 {
      DigitsValueDecimal(n / 10);
      var p := Decimal(n);
      assert p[..|p| - 1] == Decimal(n / 10);
    }
  }

  lemma {:induction false} DecimalLength(n: nat)
    ensures n >= 100 ==> |Decimal(n)| > 2
    decreases n
  {
    if n >= 10 {
      DecimalLength(n / 10);
      if n >= 100 {
        assert n / 10 >= 10;
        DecimalLength(n / 10);
        assert |Decimal(n / 10)| >= 2 by { assert Decimal(n / 10) == Decimal(n / 100) + [('0' as int + (n / 10) % 10) as char]; }
      }
    }
  }

  /** Some part is a strike token. */
  predicate HasStrikeToken(parts: seq<string>) {
    exists i :: 0 <= i < |parts| && IsStrikeToken(parts[i])
  }

  /** Part `i` is a strike token and no earlier part is. */
  predicate IsFirstStrikeToken(parts: seq<string>, i: int) {
    && 0 <= i < |parts|
    && IsStrikeToken(parts[i])
    && forall j :: 0 <= j < i ==> !IsStrikeToken(parts[j])
  }

  /** The loop of `extract_strike` over the dash-separated parts. */
  function FirstStrike(parts: seq<string>): nat {
    if |parts| == 0 then 0
    else if IsStrikeToken(parts[0]) then DigitsValue(parts[0])
    else FirstStrike(parts[1..])
  }

  /** `extract_strike` on its parts: the value of the first strike token, else 0. */
  lemma {:induction false} FirstStrikeSpec(parts: seq<string>)
    ensures !HasStrikeToken(parts) ==> FirstStrike(parts) == 0
    ensures forall i :: IsFirstStrikeToken(parts, i) ==> FirstStrike(parts) == DigitsValue(parts[i])
  {
    if |parts| > 0 && !IsStrikeToken(parts[0]) {
      FirstStrikeSpec(parts[1..]);
      assert forall i :: 1 <= i < |parts| ==> parts[i] == parts[1..][i - 1];
      assert forall i :: IsFirstStrikeToken(parts, i) ==> i >= 1 && IsFirstStrikeToken(parts[1..], i - 1);
    }
  }

  /** When some part is a strike token, one of them is the first. */
  lemma {:induction false} FirstStrikeTokenExists(parts: seq<string>)
    requires HasStrikeToken(parts)
    ensures exists i :: IsFirstStrikeToken(parts, i)
  {
    if IsStrikeToken(parts[0]) {
      assert IsFirstStrikeToken(parts, 0);
    } else {
      var k :| 0 <= k < |parts| && IsStrikeToken(parts[k]);
      assert IsStrikeToken(parts[1..][k - 1]);
      FirstStrikeTokenExists(parts[1..]);
      var i :| IsFirstStrikeToken(parts[1..], i);
      assert IsFirstStrikeToken(parts, i + 1);
    }
  }

  /**
   * `extract_strike`: the value of the first dash-separated token that is all
   * digits and longer than two characters, or 0 when there is none.
   */
  function ExtractStrike(symbol: string): nat {
    FirstStrike(Split(symbol))
  }

  /** What `extract_strike` returns, stated on the symbol's split. */
  lemma ExtractStrikeSpec(symbol: string)
    ensures !HasStrikeToken(Split(symbol)) ==> ExtractStrike(symbol) == 0
    ensures HasStrikeToken(Split(symbol)) ==>
              exists i :: IsFirstStrikeToken(Split(symbol), i) && ExtractStrike(symbol) == DigitsValue(Split(symbol)[i])
  {
    FirstStrikeSpec(Split(symbol));
    if HasStrikeToken(Split(symbol)) {
      FirstStrikeTokenExists(Split(symbol));
    }
  }

  lemma {:induction false} FirstStrikeAfter(prefix: seq<string>, token: string, suffix: seq<string>)
    requires forall i :: 0 <= i < |prefix| ==> !IsStrikeToken(prefix[i])
    requires IsStrikeToken(token)
    ensures FirstStrike(prefix + [token] + suffix) == DigitsValue(token)
  {
    if |prefix| > 0 {
      assert (prefix + [token] + suffix)[1..] == prefix[1..] + [token] + suffix;
      FirstStrikeAfter(prefix[1..], token, suffix);
    }
  }

  lemma AllDashFree(prefix: seq<string>, token: string, suffix: seq<string>)
    requires forall i :: 0 <= i < |prefix| ==> '-' !in prefix[i]
    requires '-' !in token
    requires forall i :: 0 <= i < |suffix| ==> '-' !in suffix[i]
    ensures forall i :: 0 <= i < |prefix + [token] + suffix| ==> '-' !in (prefix + [token] + suffix)[i]
  {
    var parts := prefix + [token] + suffix;
    forall i | 0 <= i < |parts| ensures '-' !in parts[i] {
      if i < |prefix| { assert parts[i] == prefix[i]; }
      else if i > |prefix| { assert parts[i] == suffix[i - |prefix| - 1]; }
    }
  }

  /**
   * A symbol made of dash-free pieces none of which is a strike token, then the
   * decimal text of a strike of at least three digits, then any dash-free
   * pieces, yields exactly that strike.
   */
  lemma StrikeRoundTrip(prefix: seq<string>, strike: nat, suffix: seq<string>)
    requires strike >= 100
    requires forall i :: 0 <= i < |prefix| ==> '-' !in prefix[i] && !IsStrikeToken(prefix[i])
    requires forall i :: 0 <= i < |suffix| ==> '-' !in suffix[i]
    ensures ExtractStrike(Join(prefix + [Decimal(strike)] + suffix)) == strike
  {
    var token := Decimal(strike);
    DecimalLength(strike);
    assert '-' !in token by {
      assert forall i :: 0 <= i < |token| ==> IsDigit(token[i]);
    }
    AllDashFree(prefix, token, suffix);
    SplitJoin(prefix + [token] + suffix);
    FirstStrikeAfter(prefix, token, suffix);
    DigitsValueDecimal(strike);
  }

  /** Python's `pair in s` for a two-character pattern `[a, b]`. */
  function HasPair(s: string, a: char, b: char): bool {
    if |s| < 2 then false
    else if s[0] == a && s[1] == b then true
    else HasPair(s[1..], a, b)
  }

  /** The two-character test holds exactly when some position holds `a` followed by `b`. */
  lemma {:induction false} HasPairSpec(s: string, a: char, b: char)
    ensures HasPair(s, a, b) <==> exists i :: 0 <= i < |s| - 1 && s[i] == a && s[i + 1] == b
  {
    if |s| >= 2 && !(s[0] == a && s[1] == b) {
      var t := s[1..];
      HasPairSpec(t, a, b);
      if HasPair(s, a, b) {
        var j :| 0 <= j < |t| - 1 && t[j] == a && t[j + 1] == b;
        assert s[j + 1] == a && s[j + 2] == b;
      } else {
        forall i | 0 <= i < |s| - 1 && s[i] == a
          ensures s[i + 1] != b
        {
          if i > 0 {
            assert t[i - 1] == a && t[i] == s[i + 1];
          }
        }
      }
    }
  }

  /** Where `group_options_by_strike` files a quote. */
  datatype Slot = CallSlot | PutSlot | NoSlot

  /** `'C-' in symbol` is tested first, then `'P-' in symbol`. */
  function Classify(symbol: string): Slot {
    if HasPair(symbol, 'C', '-') then CallSlot
    else if HasPair(symbol, 'P', '-') then PutSlot
    else NoSlot
  }

  /**
   * A symbol is filed as a call exactly when it contains "C-", as a put exactly
   * when it contains "P-" but not "C-", and nowhere otherwise.
   */
  lemma ClassifySpec(symbol: string)
    ensures Classify(symbol) == CallSlot <==> exists i :: 0 <= i < |symbol| - 1 && symbol[i] == 'C' && symbol[i + 1] == '-'
    ensures Classify(symbol) == PutSlot <==>
              && (forall i :: 0 <= i < |symbol| - 1 ==> !(symbol[i] == 'C' && symbol[i + 1] == '-'))
              && (exists i :: 0 <= i < |symbol| - 1 && symbol[i] == 'P' && symbol[i + 1] == '-')
  {
    HasPairSpec(symbol, 'C', '-');
    HasPairSpec(symbol, 'P', '-');
  }

  /** Every symbol that starts with "BTC-" is filed as a call, puts included. */
  lemma BtcIsAlwaysCall(rest: string)
    ensures Classify("BTC-" + rest) == CallSlot
  {
    var s := "BTC-" + rest;
    assert s[2] == 'C' && s[3] == '-';
    ClassifySpec(s);
  }

  /**
   * A symbol `<asset>-<digits>-C` or `<asset>-<digits>-P` whose asset name has
   * no 'C' or 'P' in it is filed nowhere: the type letter is the last character,
   * so it is never followed by '-'.
   */
  lemma TrailingTypeLetterIsNeverFiled(asset: string, digits: string, kind: char)
    requires kind == 'C' || kind == 'P'
    requires 'C' !in asset && 'P' !in asset
    requires AllDigits(digits)
    ensures Classify(asset + "-" + digits + "-" + [kind]) == NoSlot
  {
    var s := asset + "-" + digits + "-" + [kind];
    ClassifySpec(s);
    forall i | 0 <= i < |s| - 1
      ensures s[i] != 'C' && s[i] != 'P'
    {
      if i < |asset| {
        assert s[i] == asset[i];
      } else if |asset| < i < |asset| + 1 + |digits| {
        assert s[i] == digits[i - |asset| - 1];
      }
    }
  }
}
