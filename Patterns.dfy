/** The regular expressions the two payment validators test, written as
    character predicates. In a JavaScript regular expression without the
    `u` flag, `\d` is `[0-9]` and `\w` is `[A-Za-z0-9_]`; without the `m`
    flag, `^` and `$` anchor at the ends of the whole input. */
module Patterns {
  import opened Text

  predicate IsDigit(c: char) { '0' <= c <= '9' }

  /** `\w` */
  predicate IsWordChar(c: char) { IsDigit(c) || IsAsciiUpper(c) || IsAsciiLower(c) || c == '_' }

  /** `[\w.-]`, the characters allowed on either side of a UPI id's `@`. */
  predicate IsUpiChar(c: char) { IsWordChar(c) || c == '.' || c == '-' }

  predicate AllDigits(s: string) {
    forall k :: 0 <= k < |s| ==> IsDigit(s[k])
  }

  /** `/^\d{16}$/`. A number it accepts is never empty, so the checkout's
      presence test before it rejects nothing this test would accept. */
  function IsCardNumber(s: string): (b: bool)
    ensures b ==> s != ""
  {
    |s| == 16 && AllDigits(s)
  }

  /** `/^[A-Z]{4}0[A-Z0-9]{6}$/`. A code it accepts has no lower-case letter,
      so upper-casing it changes nothing. */
  function IsIfsc(s: string): (b: bool)
    ensures b ==> ToUpper(s) == s
  {
    && |s| == 11
    && (forall k :: 0 <= k < 4 ==> IsAsciiUpper(s[k]))
    && s[4] == '0'
    && (forall k :: 5 <= k < 11 ==> IsAsciiUpper(s[k]) || IsDigit(s[k]))
  }

  /** `/^\d{3}$/`, the checkout page's CVV rule: exactly the payment form's
      rule restricted to three characters. */
  function IsCvv3(s: string): (b: bool)
    ensures b <==> IsCvv3or4(s) && |s| == 3
  {
    |s| == 3 && AllDigits(s)
  }

  /** `/^\d{3,4}$/`, the payment form's CVV rule. A CVV it accepts is never
      empty. */
  function IsCvv3or4(s: string): (b: bool)
    ensures b ==> s != ""
  {
    3 <= |s| <= 4 && AllDigits(s)
  }

  /** Every character of `s` is one of `[\w.-]`. */
  ghost predicate AllUpiChars(s: string) {
    forall k :: 0 <= k < |s| ==> IsUpiChar(s[k])
  }

  /** The shape `/^[\w.-]+@[\w.-]+$/` describes: a non-empty local part, an
      `@` at index `k`, a non-empty handle, both parts drawn from `[\w.-]`. */
  ghost predicate UpiSplitAt(s: string, k: int) {
    0 < k < |s| - 1 && s[k] == '@' && AllUpiChars(s[..k]) && AllUpiChars(s[k + 1..])
  }

  /** The states of a matcher for `/^[\w.-]+@[\w.-]+$/`. */
  datatype UpiState = Start | Local | AfterAt | Handle | Dead

  function UpiStep(st: UpiState, c: char): UpiState {
    match st
    case Start => if IsUpiChar(c) then Local else Dead
    case Local => if IsUpiChar(c) then Local else if c == '@' then AfterAt else Dead
    case AfterAt => if IsUpiChar(c) then Handle else Dead
    case Handle => if IsUpiChar(c) then Handle else Dead
    case Dead => Dead
  }

  function UpiRun(st: UpiState, s: string): UpiState
    decreases |s|
  {
    if s == [] then st else UpiRun(UpiStep(st, s[0]), s[1..])
  }

  /** `/^[\w.-]+@[\w.-]+$/.test(s)`. It never accepts the empty string, so
      the `!upi` test before it rejects nothing this test would accept. */
  function IsUpiId(s: string): (b: bool)
    ensures b ==> s != ""
  {
    UpiRun(Start, s) == Handle
  }

  /** The matcher accepts exactly the strings of the regular expression's shape. */
  lemma IsUpiIdIff(s: string)
    ensures IsUpiId(s) <==> exists k :: UpiSplitAt(s, k)
  {
    if s != [] && IsUpiChar(s[0]) {
      LocalRun(s[1..]);
      if exists k :: UpiSplitAt(s, k) {
        var k :| UpiSplitAt(s, k);
        assert s[1..][..k - 1] == s[1..k];
        assert s[1..][k..] == s[k + 1..];
        assert LocalSplitAt(s[1..], k - 1);
      }
      if exists j :: LocalSplitAt(s[1..], j) {
        var j :| LocalSplitAt(s[1..], j);
        assert s[..j + 1] == [s[0]] + s[1..][..j];
        assert s[j + 2..] == s[1..][j + 1..];
        assert UpiSplitAt(s, j + 1);
      }
    } else {
      DeadRun(if s == [] then [] else s[1..]);
    }
  }

  /** From the local-part state: the rest of the local part, `@`, a non-empty handle. */
  ghost predicate LocalSplitAt(t: string, j: int) {
    0 <= j < |t| - 1 && t[j] == '@' && AllUpiChars(t[..j]) && AllUpiChars(t[j + 1..])
  }

  lemma {:induction false} LocalRun(t: string)
    ensures UpiRun(Local, t) == Handle <==> exists j :: LocalSplitAt(t, j)
  {
    if t == [] {
    } else if IsUpiChar(t[0]) {
      LocalRun(t[1..]);
      if exists j :: LocalSplitAt(t[1..], j) {
        var j :| LocalSplitAt(t[1..], j);
        assert t[..j + 1] == [t[0]] + t[1..][..j];
        assert t[j + 2..] == t[1..][j + 1..];
        assert LocalSplitAt(t, j + 1);
      }
      if exists j :: LocalSplitAt(t, j) {
        var j :| LocalSplitAt(t, j);
        assert j != 0;
        assert t[1..][..j - 1] == t[1..j];
        assert t[1..][j..] == t[j + 1..];
        assert LocalSplitAt(t[1..], j - 1);
      }
    } else if t[0] == '@' {
      AfterAtRun(t[1..]);
      if UpiRun(Local, t) == Handle {
        assert t[1..] == t[0 + 1..];
        assert LocalSplitAt(t, 0);
      }
    } else {
      DeadRun(t[1..]);
    }
  }

  lemma {:induction false} AfterAtRun(t: string)
    ensures UpiRun(AfterAt, t) == Handle <==> t != [] && AllUpiChars(t)
  {
    if t != [] {
      if IsUpiChar(t[0]) {
        HandleRun(t[1..]);
      } else {
        DeadRun(t[1..]);
      }
    }
  }

  lemma {:induction false} HandleRun(t: string)
    ensures UpiRun(Handle, t) == Handle <==> AllUpiChars(t)
  {
    if t != [] {
      if IsUpiChar(t[0]) {
        HandleRun(t[1..]);
      } else {
        DeadRun(t[1..]);
      }
    }
  }

  lemma {:induction false} DeadRun(t: string)
    ensures UpiRun(Dead, t) == Dead
  {
    if t != [] {
      DeadRun(t[1..]);
    }
  }

  /** Sample inputs: `SBIN0001234` is an IFSC code and `ajay@upi` a UPI id
      (both appear as placeholders in the payment inputs); `ajay`,
      `BADCODE` and `123` are refused. */
  lemma Examples()
    ensures IsCardNumber("1234567890123456") && !IsCardNumber("123")
    ensures IsIfsc("SBIN0001234") && !IsIfsc("BADCODE")
    ensures IsUpiId("ajay@upi") && !IsUpiId("ajay")
  {
  }
}
