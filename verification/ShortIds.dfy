/** The short identifiers of closing orders, cut to twenty characters. */
module ShortIds {
  import opened Rounding
  import opened Text

  function NormalizeSymbol(s: string): string
  {
    ToUpper(TrimSpace(s))
  }

  /** The abbreviation of a symbol used in short identifiers. */
  function SymbolCode(symbol: string): (code: string)
    ensures |code| <= 3
  {
    var s := NormalizeSymbol(symbol);
    if s == "NIFTY" then "NIF"
    else if s == "BANKNIFTY" then "BNF"
    else if s == "FINNIFTY" then "FNF"
    else if s == "MIDCPNIFTY" then "MID"
    else if s == "SENSEX" then "SNX"
    else if s == "BANKEX" then "BKX"
    else if |s| >= 3 then s[..3] else s
  }

  function LegCode(legType: string): (code: string)
    ensures |code| == 3
  {
    if ToUpper(legType) == "CE" then "SCE" else if ToUpper(legType) == "PE" then "SPE" else "SQF"
  }

  const SHORT_UID_LENGTH := 20

  /** `BuildShortOrderUID`: code, time stamp, leg and a non-zero suffix, cut to twenty characters. */
  function ShortUid(symbol: string, leg: string, stamp: string, suffix: nat): string
  {
    var base := SymbolCode(symbol) + stamp + ToUpper(leg);
    var full := if suffix > 0 then base + "_" + Decimal(suffix) else base;
    if |full| > SHORT_UID_LENGTH then full[..SHORT_UID_LENGTH] else full
  }

  /** The digits of a suffix that survive the cut, after a time stamp of twelve and a leg of three characters. */
  function Kept(symbol: string, n: nat): string
  {
    Decimal(n)[..Min(|Decimal(n)|, 4 - |SymbolCode(symbol)|)]
  }

  lemma LegCodeIsUpper(legType: string)
    ensures ToUpper(LegCode(legType)) == LegCode(legType)
  {
    assert ToUpper("SCE") == "SCE" && ToUpper("SPE") == "SPE" && ToUpper("SQF") == "SQF";
  }

  lemma ShortUidForm(symbol: string, leg: string, stamp: string, n: nat)
    requires |stamp| == 12 && |leg| == 3
    ensures
      var base := SymbolCode(symbol) + stamp + ToUpper(leg);
      ShortUid(symbol, leg, stamp, n) == base + if n > 0 then "_" + Kept(symbol, n) else ""
  {
    hide SymbolCode, Decimal;
    var base := SymbolCode(symbol) + stamp + ToUpper(leg);
    var full := base + "_" + Decimal(n);
    var room := 4 - |SymbolCode(symbol)|;
    assert |base + "_"| + room == SHORT_UID_LENGTH;
    assert base + "" == base;
    if |Decimal(n)| <= room {
      assert Kept(symbol, n) == Decimal(n);
      assert full == base + ("_" + Kept(symbol, n));
    } else {
      assert full[..SHORT_UID_LENGTH] == base + ("_" + Kept(symbol, n));
    }
  }

  /** Two identifiers of one symbol and time are equal exactly when the legs and the surviving digits are. */
  lemma ShortUidsEqual(symbol: string, leg1: string, leg2: string, stamp: string, m: nat, n: nat)
    requires |stamp| == 12 && |leg1| == 3 && |leg2| == 3 && m < n
    ensures ShortUid(symbol, leg1, stamp, m) == ShortUid(symbol, leg2, stamp, n)
      <==> ToUpper(leg1) == ToUpper(leg2) && m > 0 && Kept(symbol, m) == Kept(symbol, n)
  {
    ShortUidForm(symbol, leg1, stamp, m);
    ShortUidForm(symbol, leg2, stamp, n);
    hide SymbolCode, ShortUid, Kept;
    var front := SymbolCode(symbol) + stamp;
    var tail := if m > 0 then "_" + Kept(symbol, m) else "";
    SplitBase(front + ToUpper(leg1), front + ToUpper(leg2), tail, "_" + Kept(symbol, n));
    assert (front + ToUpper(leg1))[|front|..] == ToUpper(leg1) && (front + ToUpper(leg2))[|front|..] == ToUpper(leg2);
    assert ("_" + Kept(symbol, m))[1..] == Kept(symbol, m) && ("_" + Kept(symbol, n))[1..] == Kept(symbol, n);
  }

  lemma SplitBase(a: string, b: string, x: string, y: string)
    requires |a| == |b|
    ensures a + x == b + y <==> a == b && x == y
  {
    assert (a + x)[..|a|] == a && (b + y)[..|b|] == b;
    assert (a + x)[|a|..] == x && (b + y)[|b|..] == y;
  }

  /** Suffixes below ten survive the cut. */
  lemma SmallSuffixKept(symbol: string, n: nat)
    requires n < 10
    ensures Kept(symbol, n) == Decimal(n)
  {
    hide SymbolCode;
    assert Decimal(n)[..1] == Decimal(n);
  }

  /** The codes of the six indices, in any letter case and with blanks around them. */
  lemma IndexCodes()
    ensures SymbolCode("NIFTY") == "NIF" && SymbolCode("BANKNIFTY") == "BNF" && SymbolCode("FINNIFTY") == "FNF"
    ensures SymbolCode("MIDCPNIFTY") == "MID" && SymbolCode("SENSEX") == "SNX" && SymbolCode("BANKEX") == "BKX"
    ensures SymbolCode(" nifty") == "NIF" && SymbolCode("reliance") == "REL" && SymbolCode("ab") == "AB"
  {
    KnownCode("NIFTY", "NIFTY");
    KnownCode("BANKNIFTY", "BANKNIFTY");
    KnownCode("FINNIFTY", "FINNIFTY");
    KnownCode("MIDCPNIFTY", "MIDCPNIFTY");
    KnownCode("SENSEX", "SENSEX");
    KnownCode("BANKEX", "BANKEX");
    KnownCode("reliance", "RELIANCE");
    KnownCode("ab", "AB");
    assert TrimSpace(" nifty") == TrimSpace("nifty") by { assert " nifty"[1..] == "nifty"; }
    KnownCode("nifty", "NIFTY");
    hide TrimSpace, ToUpper;
    CodeOf("NIFTY");
    CodeOf("BANKNIFTY");
    CodeOf("FINNIFTY");
    CodeOf("MIDCPNIFTY");
    CodeOf("SENSEX");
    CodeOf("BANKEX");
  }

  lemma KnownCode(s: string, upper: string)
    requires |s| == |upper| > 0 && forall i :: 0 <= i < |s| ==> UpperChar(s[i]) == upper[i]
    requires !IsSpace(s[0]) && !IsSpace(s[|s| - 1])
    ensures NormalizeSymbol(s) == upper
  {
    assert TrimSpace(s) == s;
  }

  lemma CodeOf(s: string)
    ensures s == "NIFTY" ==> |s| == 5 && s[0] == 'N'
    ensures s == "BANKNIFTY" ==> |s| == 9 && s[0] == 'B'
    ensures s == "FINNIFTY" ==> |s| == 8 && s[0] == 'F'
    ensures s == "MIDCPNIFTY" ==> |s| == 10 && s[0] == 'M'
    ensures s == "SENSEX" ==> |s| == 6 && s[0] == 'S'
    ensures s == "BANKEX" ==> |s| == 6 && s[0] == 'B'
  {
  }

  /** Calls, puts and everything else, in any letter case. */
  lemma LegCodes()
    ensures LegCode("CE") == LegCode("ce") == "SCE" && LegCode("PE") == LegCode("pe") == "SPE" &&
      LegCode("FUT") == "SQF"
  {
    assert ToUpper("CE") == "CE" && ToUpper("ce") == "CE" && ToUpper("PE") == "PE" && ToUpper("pe") == "PE";
    assert |ToUpper("FUT")| == 3;
  }
}
