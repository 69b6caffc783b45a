/** Bug identifiers `BUG-<yyyymmdd>-<hex>` (`engine/bug_store.py`, `_new_bug_id`). */
module BugIds {

  /** A day as `strftime("%Y%m%d")` prints it. */
  type Stamp = s: string | |s| == 8 witness "20260101"

  function HexDigit(d: nat): char
    requires d < 16
  {
    if d < 10 then '0' + d as char else 'a' + (d - 10) as char
  }

  function ToHex(n: nat): (s: string)
    ensures |s| >= 1
  {
    if n < 16 then [HexDigit(n)] else ToHex(n / 16) + [HexDigit(n % 16)]
  }

  /** The conversion `04x`: at least four digits, more when they are needed. */
  function Hex4(n: nat): string {
    PadTo4(ToHex(n))
  }

  function PadTo4(s: string): string
    decreases 4 - |s|
  {
    if |s| >= 4 then s else PadTo4("0" + s)
  }

  function DigitValue(c: char): nat {
    if '0' <= c <= '9' then (c - '0') as nat
    else if 'a' <= c <= 'f' then (c - 'a') as nat + 10
    else 0
  }

  function FromHex(s: string): nat {
    if s == "" then 0 else FromHex(s[..|s| - 1]) * 16 + DigitValue(s[|s| - 1])
  }

  lemma AppendDigit(s: string, c: char)
    ensures FromHex(s + [c]) == FromHex(s) * 16 + DigitValue(c)
  {
    assert (s + [c])[..|s|] == s;
  }

  lemma DigitRoundTrip(d: nat)
    requires d < 16
    ensures DigitValue(HexDigit(d)) == d
  {
  }

  lemma {:induction false} FromToHex(n: nat)
    ensures FromHex(ToHex(n)) == n
  {
    if n < 16 {
      AppendDigit("", HexDigit(n));
      DigitRoundTrip(n);
      assert "" + [HexDigit(n)] == [HexDigit(n)];
    } else {
      var q, d := n / 16, n % 16;
      assert ToHex(n) == ToHex(q) + [HexDigit(d)];
      hide ToHex, FromHex, DigitValue, HexDigit;
      FromToHex(q);
      AppendDigit(ToHex(q), HexDigit(d));
      DigitRoundTrip(d);
    }
  }

  lemma {:induction false} LeadingZero(s: string)
    ensures FromHex("0" + s) == FromHex(s)
  {
    if s == "" {
      assert FromHex("0") == FromHex("") * 16 + DigitValue('0');
    } else {
      LeadingZero(s[..|s| - 1]);
      assert ("0" + s)[..|s|] == "0" + s[..|s| - 1];
    }
  }

  lemma {:induction false} PaddingKeepsValue(s: string)
    ensures FromHex(PadTo4(s)) == FromHex(s)
    decreases 4 - |s|
  {
    if |s| < 4 {
      PaddingKeepsValue("0" + s);
      LeadingZero(s);
    }
  }

  lemma Hex4Injective(a: nat, b: nat)
    requires Hex4(a) == Hex4(b)
    ensures a == b
  {
    FromToHex(a);
    FromToHex(b);
    PaddingKeepsValue(ToHex(a));
    PaddingKeepsValue(ToHex(b));
  }

  function Prefix(stamp: Stamp): (p: string)
    ensures |p| == 13
  {
    "BUG-" + stamp + "-"
  }

  /** `SELECT COUNT(*) ... LIKE prefix%`: ids that start with the prefix. */
  function CountWithPrefix(ids: seq<string>, prefix: string): nat {
    if ids == [] then 0
    else CountWithPrefix(ids[..|ids| - 1], prefix) + if prefix <= ids[|ids| - 1] then 1 else 0
  }

  /** The id given to the next bug of the day `stamp`. */
  function NewBugId(ids: seq<string>, stamp: Stamp): string {
    Prefix(stamp) + Hex4(CountWithPrefix(ids, Prefix(stamp)) + 1)
  }

  /** Every id is the one the store hands out at that position, on some day. */
  ghost predicate Issued(ids: seq<string>) {
    forall i :: 0 <= i < |ids| ==> IssuedAt(ids, i)
  }

  ghost predicate IssuedAt(ids: seq<string>, i: nat)
    requires i < |ids|
  {
    exists stamp: Stamp :: ids[i] == NewBugId(ids[..i], stamp)
  }

  lemma {:induction false} CountGrows(ids: seq<string>, prefix: string, i: nat, j: nat)
    requires i < j <= |ids| && prefix <= ids[i]
    ensures CountWithPrefix(ids[..j], prefix) > CountWithPrefix(ids[..i], prefix)
    decreases j
  {
    assert ids[..j][..j - 1] == ids[..j - 1];
    if i < j - 1 {
      CountGrows(ids, prefix, i, j - 1);
    }
  }

  /** Ids never collide, whatever the order in which the days come. */
  lemma IssuedIdsAreDistinct(ids: seq<string>, i: nat, j: nat)
    requires Issued(ids) && i < j < |ids|
    ensures ids[i] != ids[j]
  {
    if ids[i] == ids[j] {
      assert IssuedAt(ids, i) && IssuedAt(ids, j);
      var a: Stamp :| ids[i] == NewBugId(ids[..i], a);
      var b: Stamp :| ids[j] == NewBugId(ids[..j], b);
      assert ids[i][..13] == Prefix(a) && ids[j][..13] == Prefix(b);
      var ca, cb := CountWithPrefix(ids[..i], Prefix(a)) + 1, CountWithPrefix(ids[..j], Prefix(a)) + 1;
      assert ids[i][13..] == Hex4(ca) && ids[j][13..] == Hex4(cb);
      Hex4Injective(ca, cb);
      CountGrows(ids, Prefix(a), i, j);
      assert false;
    }
  }

  lemma IssueOneMore(ids: seq<string>, stamp: Stamp)
    requires Issued(ids)
    ensures Issued(ids + [NewBugId(ids, stamp)])
    ensures NewBugId(ids, stamp) !in ids
  {
    var more := ids + [NewBugId(ids, stamp)];
    forall i | 0 <= i < |more|
      ensures IssuedAt(more, i)
    {
      if i < |ids| {
        assert IssuedAt(ids, i);
        assert more[..i] == ids[..i];
      } else {
        assert more[..i] == ids;
      }
    }
    forall i | 0 <= i < |ids|
      ensures ids[i] != more[|ids|]
    {
      IssuedIdsAreDistinct(more, i, |ids|);
    }
  }
}
