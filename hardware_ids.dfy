/**
 * Vendor and product ids read from a Windows device symbolic link: the hex digits after the
 * first `vid_` (or `pid_`), letters in either case, as the regular expressions
 * `[Vv][Ii][Dd]_([A-Fa-f0-9]+)` and `[Pp][Ii][Dd]_([A-Fa-f0-9]+)` find them, parsed as a
 * 16-bit hex number; 0 when there is no such match or the number does not fit in 16 bits.
 */
module HardwareIds {
  import opened Wrappers
  import opened Bytes

  predicate IsHex(c: char)
  {
    '0' <= c <= '9' || 'a' <= c <= 'f' || 'A' <= c <= 'F'
  }

  /** The value of a hex digit (0 for any other character, which no caller passes). */
  function HexDigit(c: char): (d: nat)
    ensures d < 16
  {
    if '0' <= c <= '9' then c as int - '0' as int
    else if 'a' <= c <= 'f' then c as int - 'a' as int + 10
    else if 'A' <= c <= 'F' then c as int - 'A' as int + 10
    else 0
  }

  /** The number written by a run of hex digits, most significant first. */
  function HexValue(digits: seq<char>): nat
  {
    if digits == [] then 0 else 16 * HexValue(digits[..|digits| - 1]) + HexDigit(digits[|digits| - 1])
  }

  function Pow16(n: nat): nat
  {
    if n == 0 then 1 else 16 * Pow16(n - 1)
  }

  /** `n` digits write a number below 16^n. */
  lemma {:induction false} HexValueBound(digits: seq<char>)
    ensures HexValue(digits) < Pow16(|digits|)
  {
    if digits != [] {
      var init := digits[..|digits| - 1];
      HexValueBound(init);
      assert HexValue(init) + 1 <= Pow16(|init|);
    }
  }

  /** Leading zeros do not change the number. */
  lemma {:induction false} HexValueLeadingZero(digits: seq<char>)
    ensures HexValue(['0'] + digits) == HexValue(digits)
  {
    var z := ['0'] + digits;
    if digits != [] {
      assert z[..|z| - 1] == ['0'] + digits[..|digits| - 1];
      HexValueLeadingZero(digits[..|digits| - 1]);
    }
  }

  /** The ASCII lower-case form of a character; every other character is left as it is. */
  function Lower(c: char): char
  {
    if 'A' <= c <= 'Z' then (c as int - 'A' as int + 'a' as int) as char else c
  }

  /** `s` spells `tag` (lower case) at `i`, each letter in either case. */
  predicate TagAt(s: seq<char>, i: nat, tag: seq<char>)
  {
    i + |tag| <= |s| && forall k :: 0 <= k < |tag| ==> Lower(s[i + k]) == tag[k]
  }

  /** The regular expression matches at `i`: the tag and at least one hex digit after it. */
  predicate MatchAt(s: seq<char>, i: nat, tag: seq<char>)
  {
    TagAt(s, i, tag) && i + |tag| < |s| && IsHex(s[i + |tag|])
  }

  /** The leftmost match at or after `from`: the position the regex search reports. */
  function FindMatch(s: seq<char>, tag: seq<char>, from: nat): (r: Option<nat>)
    decreases |s| - from
    ensures r.Some? ==> r.value + |tag| < |s|
  {
    if from >= |s| then None
    else if MatchAt(s, from, tag) then Some(from)
    else FindMatch(s, tag, from + 1)
  }

  /** `FindMatch` finds a match exactly when there is one, and then the leftmost one. */
  lemma {:induction false} FindMatchIsLeftmost(s: seq<char>, tag: seq<char>, from: nat)
    decreases |s| - from
    ensures var r := FindMatch(s, tag, from);
      && (r.Some? ==> from <= r.value && MatchAt(s, r.value, tag))
      && (r.Some? ==> forall j :: from <= j < r.value ==> !MatchAt(s, j, tag))
      && (r.None? ==> forall j :: from <= j ==> !MatchAt(s, j, tag))
  {
    if from < |s| && !MatchAt(s, from, tag) {
      FindMatchIsLeftmost(s, tag, from + 1);
    }
  }

  /** The number of hex digits in a row from `i`: the greedy `+` of the capture group. */
  function HexRun(s: seq<char>, i: nat): (n: nat)
    requires i <= |s|
    decreases |s| - i
    ensures i + n <= |s|
  {
    if i < |s| && IsHex(s[i]) then 1 + HexRun(s, i + 1) else 0
  }

  /** `HexRun` counts exactly the run: `n` hex digits from `i`, then the end or another character. */
  lemma {:induction false} HexRunIsMaximal(s: seq<char>, i: nat, n: nat)
    requires i + n <= |s|
    decreases n
    ensures HexRun(s, i) == n <==>
      (forall k :: i <= k < i + n ==> IsHex(s[k])) && (i + n == |s| || !IsHex(s[i + n]))
  {
    if n > 0 && i < |s| && IsHex(s[i]) {
      HexRunIsMaximal(s, i + 1, n - 1);
      if HexRun(s, i) == n {
        assert forall k :: i <= k < i + n ==> IsHex(s[k]) by {
          forall k | i <= k < i + n ensures IsHex(s[k]) {
            if k > i {
              assert i + 1 <= k < i + 1 + (n - 1);
            }
          }
        }
      }
    }
  }

  /** The captured digits of the leftmost match. */
  function Captured(s: seq<char>, tag: seq<char>): Option<seq<char>>
  {
    match FindMatch(s, tag, 0)
    case None => None
    case Some(i) =>
      var start := i + |tag|;
      Some(s[start..start + HexRun(s, start)])
  }

  /**
   * `captures(..).and_then(get(1)).and_then(u16::from_str_radix(.., 16).ok()).unwrap_or_default()`.
   */
  function ExtractId(s: seq<char>, tag: seq<char>): u16
  {
    match Captured(s, tag)
    case None => 0
    case Some(d) => if HexValue(d) <= 0xFFFF then HexValue(d) else 0
  }

  /** The product id of a symbolic link. */
  function ProductId(link: seq<char>): u16
  {
    ExtractId(link, "pid_")
  }

  /** The vendor id of a symbolic link. */
  function VendorId(link: seq<char>): u16
  {
    ExtractId(link, "vid_")
  }

  /**
   * The id is read at the first match: when `tag` occurs at `i` followed by `n >= 1` hex
   * digits and then the end or a non-hex character, and at no earlier position, the id is the
   * value of those digits if it fits in 16 bits and 0 otherwise.
   */
  lemma ExtractIdAt(s: seq<char>, tag: seq<char>, i: nat, n: nat)
    requires MatchAt(s, i, tag)
    requires forall j :: 0 <= j < i ==> !MatchAt(s, j, tag)
    requires i + |tag| + n <= |s|
    requires forall k :: i + |tag| <= k < i + |tag| + n ==> IsHex(s[k])
    requires i + |tag| + n == |s| || !IsHex(s[i + |tag| + n])
    ensures n >= 1
    ensures var v := HexValue(s[i + |tag|..i + |tag| + n]);
      ExtractId(s, tag) == if v <= 0xFFFF then v else 0
  {
    FindMatchIsLeftmost(s, tag, 0);
    assert FindMatch(s, tag, 0) == Some(i);
    HexRunIsMaximal(s, i + |tag|, n);
  }

  /** Without a tag followed by a hex digit anywhere, the id is 0. */
  lemma NoMatchIsZero(s: seq<char>, tag: seq<char>)
    requires forall j :: 0 <= j < |s| ==> !MatchAt(s, j, tag)
    ensures ExtractId(s, tag) == 0
  {
    FindMatchIsLeftmost(s, tag, 0);
  }

  /** Up to four captured digits always fit, so the id is exactly their value. */
  lemma ShortCaptureFits(s: seq<char>, tag: seq<char>)
    requires Captured(s, tag).Some? && |Captured(s, tag).value| <= 4
    ensures ExtractId(s, tag) == HexValue(Captured(s, tag).value)
  {
    var d := Captured(s, tag).value;
    HexValueBound(d);
    var n := |d|;
    assert Pow16(n) <= Pow16(4) by {
      if n < 4 {
        assert Pow16(n) <= 0x1000 by {
          if n == 0 {} else if n == 1 {} else if n == 2 {} else {}
        }
      }
    }
  }

  /** The value grows by one digit at a time, most significant first. */
  lemma HexValueSnoc(d: seq<char>, c: char)
    ensures HexValue(d + [c]) == 16 * HexValue(d) + HexDigit(c)
  {
    assert (d + [c])[..|d|] == d;
  }

  /** A position where one letter differs from the tag is not a match. */
  lemma Mismatch(s: seq<char>, i: nat, tag: seq<char>, k: nat)
    requires k < |tag| && i + k < |s| && Lower(s[i + k]) != tag[k]
    ensures !MatchAt(s, i, tag)
  {
  }

  lemma HexValue046D()
    ensures HexValue("046D") == 0x046D
  {
    HexValueSnoc("", '0'); HexValueSnoc("0", '4'); HexValueSnoc("04", '6'); HexValueSnoc("046", 'D');
    assert "0" == "" + ['0'] && "04" == "0" + ['4'] && "046" == "04" + ['6'] && "046D" == "046" + ['D'];
  }

  lemma HexValue0825()
    ensures HexValue("0825") == 0x0825
  {
    HexValueSnoc("", '0'); HexValueSnoc("0", '8'); HexValueSnoc("08", '2'); HexValueSnoc("082", '5');
    assert "0" == "" + ['0'] && "08" == "0" + ['8'] && "082" == "08" + ['2'] && "0825" == "082" + ['5'];
  }

  lemma HexValue1F()
    ensures HexValue("1F") == 0x1F
  {
    HexValueSnoc("", '1'); HexValueSnoc("1", 'F');
    assert "1" == "" + ['1'] && "1F" == "1" + ['F'];
  }

  lemma HexValue10000()
    ensures HexValue("10000") == 0x10000
  {
    HexValueSnoc("", '1'); HexValueSnoc("1", '0'); HexValueSnoc("10", '0'); HexValueSnoc("100", '0'); HexValueSnoc("1000", '0');
    assert "1" == "" + ['1'] && "10" == "1" + ['0'] && "100" == "10" + ['0'] && "1000" == "100" + ['0'] && "10000" == "1000" + ['0'];
  }

  lemma HexValueFFFF()
    ensures HexValue("FFFF") == 0xFFFF
  {
    HexValueSnoc("", 'F'); HexValueSnoc("F", 'F'); HexValueSnoc("FF", 'F'); HexValueSnoc("FFF", 'F');
    assert "F" == "" + ['F'] && "FF" == "F" + ['F'] && "FFF" == "FF" + ['F'] && "FFFF" == "FFF" + ['F'];
  }

  /** A typical link: `VID_046D` gives 0x046d ... */
  lemma TypicalVendor()
    ensures VendorId("VID_046D&PID_0825") == 0x046D
  {
    var s := "VID_046D&PID_0825";
    assert s[4..8] == "046D" by {
      assert s[4] == '0' && s[5] == '4' && s[6] == '6' && s[7] == 'D';
    }
    HexValue046D();
    assert MatchAt(s, 0, "vid_") by {
      assert s[0] == 'V' && s[1] == 'I' && s[2] == 'D' && s[3] == '_' && s[4] == '0';
    }
    assert s[8] == '&';
    ExtractIdAt(s, "vid_", 0, 4);
  }

  /** ... and `PID_0825` gives 0x0825. */
  lemma TypicalProduct()
    ensures ProductId("VID_046D&PID_0825") == 0x0825
  {
    var s := "VID_046D&PID_0825";
    assert s[13..17] == "0825" by {
      assert s[13] == '0' && s[14] == '8' && s[15] == '2' && s[16] == '5';
    }
    HexValue0825();
    assert forall j :: 0 <= j < 9 ==> !MatchAt(s, j, "pid_") by {
      forall j | 0 <= j < 9 ensures !MatchAt(s, j, "pid_") {
        Mismatch(s, j, "pid_", 0);
      }
    }
    ExtractIdAt(s, "pid_", 9, 4);
  }

  /** A tag not followed by a hex digit is not a match, and the search goes on. */
  lemma SkipsTagWithoutDigits()
    ensures VendorId("vid_&vid_1F") == 0x1F
  {
    var s := "vid_&vid_1F";
    assert s[9..11] == "1F";
    HexValue1F();
    assert forall j :: 0 <= j < 5 ==> !MatchAt(s, j, "vid_") by {
      assert !MatchAt(s, 0, "vid_");
      forall j | 1 <= j < 5 ensures !MatchAt(s, j, "vid_") {
        Mismatch(s, j, "vid_", 0);
      }
    }
    ExtractIdAt(s, "vid_", 5, 2);
  }

  /** Five digits worth more than 0xFFFF give 0 ... */
  lemma Overflow()
    ensures ProductId("pid_10000") == 0
  {
    var s := "pid_10000";
    ExtractIdAt(s, "pid_", 0, 5);
    assert s[4..9] == "10000";
    HexValue10000();
  }

  /** ... while leading zeros are accepted. */
  lemma LeadingZeros()
    ensures ProductId("pid_0FFFF") == 0xFFFF
  {
    var s := "pid_0FFFF";
    ExtractIdAt(s, "pid_", 0, 5);
    assert s[4..9] == ['0'] + "FFFF";
    HexValueLeadingZero("FFFF");
    HexValueFFFF();
  }
}
