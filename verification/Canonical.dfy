/** The message a buyer signs, and the field-by-field comparison of echoed details. */
module Canonical {
  import opened Common
  import opened Decimal
  import opened X402

  predicate SameDetails(a: PaymentDetailsWire, b: PaymentDetailsWire) {
    && a.scheme == b.scheme
    && a.network == b.network
    && a.serverObjectId == b.serverObjectId
    && a.toolName == b.toolName
    && a.amountAtomic == b.amountAtomic
    && a.tokenType == b.tokenType
    && a.validUntilMs == b.validUntilMs
  }

  /** `fields.join("|")`. */
  function Join(fields: seq<string>): string
    requires fields != []
  {
    if |fields| == 1 then fields[0] else fields[0] + "|" + Join(fields[1..])
  }

  function FieldsOf(d: PaymentDetailsWire): seq<string> {
    ["mcpx-x402:v1", SchemeName(d.scheme), NetworkName(d.network), d.serverObjectId, d.toolName,
     d.amountAtomic, d.tokenType, PrintNumber(d.validUntilMs)]
  }

  function CanonicalMessage(d: PaymentDetailsWire): string { Join(FieldsOf(d)) }

  /** The signed text: a version, the scheme, the network and five fields, with bars between them. */
  lemma CanonicalText(d: PaymentDetailsWire)
    ensures CanonicalMessage(d)
         == "mcpx-x402:v1" + "|" + ((if d.scheme == Exact then "exact" else "upto") + "|"
              + (NetworkName(d.network) + "|" + (d.serverObjectId + "|" + (d.toolName + "|"
              + (d.amountAtomic + "|" + (d.tokenType + "|" + PrintNumber(d.validUntilMs)))))))
  {
    hide Join;
    hide PrintNumber;
    hide NetworkName;
    var fs := FieldsOf(d);
    var tail := JoinTail(fs, 7, PrintNumber(d.validUntilMs));
    tail := JoinTail(fs, 6, tail);
    tail := JoinTail(fs, 5, tail);
    tail := JoinTail(fs, 4, tail);
    tail := JoinTail(fs, 3, tail);
    tail := JoinTail(fs, 2, tail);
    tail := JoinTail(fs, 1, tail);
    tail := JoinTail(fs, 0, tail);
    assert fs[0..] == fs;
  }

  lemma JoinTail(fs: seq<string>, i: nat, after: string) returns (joined: string)
    requires i < |fs| && (i + 1 < |fs| ==> after == Join(fs[i + 1..]))
    ensures joined == Join(fs[i..]) == if i + 1 < |fs| then fs[i] + "|" + after else fs[i]
  {
    joined := Join(fs[i..]);
    assert i + 1 < |fs| ==> fs[i..][1..] == fs[i + 1..];
  }

  // ----- counting bars -----

  function Bars(s: string): nat {
    if s == "" then 0 else (if s[0] == '|' then 1 else 0) + Bars(s[1..])
  }

  lemma {:induction false} BarsConcat(a: string, b: string)
    ensures Bars(a + b) == Bars(a) + Bars(b)
  {
    if a == "" {
      assert a + b == b;
    } else {
      BarsConcat(a[1..], b);
      assert (a + b)[1..] == a[1..] + b;
    }
  }

  lemma {:induction false} NoBars(s: string)
    ensures Bars(s) == 0 <==> '|' !in s
  {
    if s != "" {
      NoBars(s[1..]);
      assert s == [s[0]] + s[1..];
    }
  }

  function TotalBars(fields: seq<string>): nat {
    if fields == [] then 0 else Bars(fields[0]) + TotalBars(fields[1..])
  }

  lemma {:induction false} JoinBars(fields: seq<string>)
    requires fields != []
    ensures Bars(Join(fields)) == TotalBars(fields) + |fields| - 1
  {
    if |fields| > 1 {
      JoinBars(fields[1..]);
      BarsConcat(fields[0] + "|", Join(fields[1..]));
      BarsConcat(fields[0], "|");
      assert fields[0] + "|" + Join(fields[1..]) == (fields[0] + "|") + Join(fields[1..]);
    }
  }

  lemma {:induction false} NoBarsInFields(fields: seq<string>)
    ensures TotalBars(fields) == 0 <==> forall f | f in fields :: '|' !in f
  {
    if fields != [] {
      NoBars(fields[0]);
      NoBarsInFields(fields[1..]);
      assert fields == [fields[0]] + fields[1..];
    }
  }

  // ----- the first bar separates the first field -----

  lemma {:induction false} JoinInjective(a: seq<string>, b: seq<string>)
    requires |a| == |b| && a != [] && Join(a) == Join(b)
    requires forall f | f in a :: '|' !in f
    requires forall f | f in b :: '|' !in f
    ensures a == b
  {
    if |a| > 1 {
      BarSplitUnique(a[0], b[0], Join(a[1..]), Join(b[1..]));
      JoinInjective(a[1..], b[1..]);
      assert a == [a[0]] + a[1..] && b == [b[0]] + b[1..];
    } else {
      assert a == [a[0]] && b == [b[0]];
    }
  }

  /** No free-form field holds the separator. */
  predicate BarFree(d: PaymentDetailsWire) {
    '|' !in d.serverObjectId && '|' !in d.toolName && '|' !in d.amountAtomic && '|' !in d.tokenType
  }

  lemma FixedFieldsHaveNoBar(d: PaymentDetailsWire)
    ensures '|' !in FieldsOf(d)[0] && '|' !in FieldsOf(d)[1] && '|' !in FieldsOf(d)[2] && '|' !in FieldsOf(d)[7]
  {
    PlainNumber(d.validUntilMs);
  }

  lemma BarFreeFields(d: PaymentDetailsWire)
    ensures BarFree(d) <==> forall f | f in FieldsOf(d) :: '|' !in f
  {
    FixedFieldsHaveNoBar(d);
    var fs := FieldsOf(d);
    assert fs[3] in fs && fs[4] in fs && fs[5] in fs && fs[6] in fs;
  }

  lemma FieldsDetermineDetails(a: PaymentDetailsWire, b: PaymentDetailsWire)
    ensures FieldsOf(a) == FieldsOf(b) <==> SameDetails(a, b)
  {
    var x, y := FieldsOf(a), FieldsOf(b);
    if x == y {
      assert x[1] == y[1] && x[2] == y[2] && x[3] == y[3] && x[4] == y[4] && x[5] == y[5] && x[6] == y[6] && x[7] == y[7];
      PrintNumberInjective(a.validUntilMs, b.validUntilMs);
      assert |SchemeName(a.scheme)| == |SchemeName(b.scheme)| && SchemeName(a.scheme)[0] == SchemeName(b.scheme)[0];
      NetworkNameInjective(a.network, b.network);
    }
  }

  lemma NetworkNameInjective(a: Network, b: Network)
    requires NetworkName(a) == NetworkName(b)
    ensures a == b
  {
    var x, y := NetworkName(a), NetworkName(b);
    assert x[0] == y[0] && |x| == |y| && x[4] == y[4];
  }

  /** A signature over bar-free details commits to them: any details with the same message are the same. */
  lemma CanonicalCommits(d: PaymentDetailsWire, e: PaymentDetailsWire)
    requires BarFree(d)
    ensures CanonicalMessage(d) == CanonicalMessage(e) <==> SameDetails(d, e)
  {
    hide Join;
    hide TotalBars;
    hide SameDetails;
    hide BarFree;
    hide SchemeName;
    hide NetworkName;
    hide PrintNumber;
    FieldsDetermineDetails(d, e);
    if CanonicalMessage(d) == CanonicalMessage(e) {
      var x, y := FieldsOf(d), FieldsOf(e);
      BarFreeFields(d);
      NoBarsInFields(x);
      JoinBars(x);
      JoinBars(y);
      NoBarsInFields(y);
      JoinInjective(x, y);
    }
  }

  // ----- the condition is exact on what the parser accepts -----

  lemma {:induction false} JoinSnoc(fields: seq<string>, x: string)
    requires fields != []
    ensures Join(fields + [x]) == Join(fields) + "|" + x
  {
    assert (fields + [x])[1..] == fields[1..] + [x];
    if |fields| > 1 {
      JoinSnoc(fields[1..], x);
      Reassociate(fields[0] + "|", Join(fields[1..]), "|" + x);
      Reassociate(fields[0] + "|" + Join(fields[1..]), "|", x);
      Reassociate(Join(fields[1..]), "|", x);
    }
  }

  /** Server and tool as they stand in the message. */
  function ServerTool(d: PaymentDetailsWire): string { d.serverObjectId + "|" + d.toolName }

  /** The message up to and including the tool. */
  function MessageFront(d: PaymentDetailsWire): string {
    "mcpx-x402:v1" + "|" + (SchemeName(d.scheme) + "|" + (NetworkName(d.network) + "|" + ServerTool(d)))
  }

  lemma MessageShape(d: PaymentDetailsWire)
    ensures CanonicalMessage(d)
         == MessageFront(d) + "|" + d.amountAtomic + "|" + d.tokenType + "|" + PrintNumber(d.validUntilMs)
  {
    hide SchemeName;
    hide NetworkName;
    hide PrintNumber;
    var front := ["mcpx-x402:v1", SchemeName(d.scheme), NetworkName(d.network), d.serverObjectId, d.toolName];
    FrontShape(d);
    var f1 := front + [d.amountAtomic];
    var f2 := f1 + [d.tokenType];
    JoinSnoc(front, d.amountAtomic);
    JoinSnoc(f1, d.tokenType);
    JoinSnoc(f2, PrintNumber(d.validUntilMs));
    assert f2 + [PrintNumber(d.validUntilMs)] == FieldsOf(d);
  }

  lemma FrontShape(d: PaymentDetailsWire)
    ensures Join(["mcpx-x402:v1", SchemeName(d.scheme), NetworkName(d.network), d.serverObjectId, d.toolName])
         == MessageFront(d)
  {
    hide SchemeName;
    hide NetworkName;
    var a, b, c := "mcpx-x402:v1", SchemeName(d.scheme), NetworkName(d.network);
    var s, t := d.serverObjectId, d.toolName;
    assert [a, b, c, s, t][1..] == [b, c, s, t] && [b, c, s, t][1..] == [c, s, t];
    assert [c, s, t][1..] == [s, t] && [s, t][1..] == [t];
    assert Join([s, t]) == s + "|" + t;
    assert Join([c, s, t]) == c + "|" + Join([s, t]);
    assert Join([b, c, s, t]) == b + "|" + Join([c, s, t]);
  }

  /** Of two accepted records with one token and one message, everything but the boundary of server and tool is equal. */
  lemma SameMessageSameRest(d: PaymentDetailsWire, e: PaymentDetailsWire)
    requires WellFormedDetails(d) && WellFormedDetails(e) && d.tokenType == e.tokenType
    requires CanonicalMessage(d) == CanonicalMessage(e)
    ensures d.scheme == e.scheme && d.network == e.network && ServerTool(d) == ServerTool(e)
    ensures d.amountAtomic == e.amountAtomic && d.validUntilMs == e.validUntilMs
  {
    hide CanonicalMessage;
    hide PrintNumber;
    hide ServerTool;
    MessageShape(d);
    MessageShape(e);
    PlainNumber(d.validUntilMs);
    PlainNumber(e.validUntilMs);
    var x, y := MessageFront(d) + "|" + d.amountAtomic, MessageFront(e) + "|" + e.amountAtomic;
    var k := d.tokenType;
    LastBarUnique(x + "|" + k, y + "|" + k, PrintNumber(d.validUntilMs), PrintNumber(e.validUntilMs));
    PrintNumberInjective(d.validUntilMs, e.validUntilMs);
    Reassociate(x, "|", k);
    Reassociate(y, "|", k);
    SuffixCancels(x, y, "|" + k);
    CanonicalHasNoBar(d.amountAtomic);
    CanonicalHasNoBar(e.amountAtomic);
    LastBarUnique(MessageFront(d), MessageFront(e), d.amountAtomic, e.amountAtomic);
    FrontDetermines(d, e);
  }

  lemma SuffixCancels(x: string, y: string, k: string)
    requires x + k == y + k
    ensures x == y
  {
    assert |x| == |y|;
    assert x == (x + k)[..|x|] && y == (y + k)[..|y|];
  }

  lemma CanonicalHasNoBar(s: string)
    requires IsCanonical(s)
    ensures '|' !in s
  {
    assert forall i | 0 <= i < |s| :: IsDigit(s[i]);
  }

  lemma FrontDetermines(d: PaymentDetailsWire, e: PaymentDetailsWire)
    requires MessageFront(d) == MessageFront(e)
    ensures d.scheme == e.scheme && d.network == e.network && ServerTool(d) == ServerTool(e)
  {
    hide ServerTool;
    NamesHaveNoBar(d.scheme, d.network);
    NamesHaveNoBar(e.scheme, e.network);
    var n, m := NetworkName(d.network) + "|" + ServerTool(d), NetworkName(e.network) + "|" + ServerTool(e);
    NamesDistinguish(d, e, n, m);
  }

  lemma NamesHaveNoBar(s: Scheme, n: Network)
    ensures '|' !in SchemeName(s) && '|' !in NetworkName(n) && '|' !in "mcpx-x402:v1"
  {
  }

  lemma NamesDistinguish(d: PaymentDetailsWire, e: PaymentDetailsWire, n: string, m: string)
    requires n == NetworkName(d.network) + "|" + ServerTool(d) && m == NetworkName(e.network) + "|" + ServerTool(e)
    requires "mcpx-x402:v1" + "|" + (SchemeName(d.scheme) + "|" + n) == "mcpx-x402:v1" + "|" + (SchemeName(e.scheme) + "|" + m)
    requires '|' !in "mcpx-x402:v1" && '|' !in SchemeName(d.scheme) && '|' !in SchemeName(e.scheme)
    requires '|' !in NetworkName(d.network) && '|' !in NetworkName(e.network)
    ensures d.scheme == e.scheme && d.network == e.network && ServerTool(d) == ServerTool(e)
  {
    hide *;
    BarSplitUnique("mcpx-x402:v1", "mcpx-x402:v1", SchemeName(d.scheme) + "|" + n, SchemeName(e.scheme) + "|" + m);
    BarSplitUnique(SchemeName(d.scheme), SchemeName(e.scheme), n, m);
    BarSplitUnique(NetworkName(d.network), NetworkName(e.network), ServerTool(d), ServerTool(e));
    SchemeNameInjective(d.scheme, e.scheme);
    NetworkNameInjective(d.network, e.network);
  }

  lemma SchemeNameInjective(a: Scheme, b: Scheme)
    requires SchemeName(a) == SchemeName(b)
    ensures a == b
  {
    assert |SchemeName(a)| == |SchemeName(b)|;
  }

  /** No bar in the server id, and none in the tool name except as its last character. */
  predicate Commits(d: PaymentDetailsWire)
    requires d.toolName != ""
  {
    '|' !in d.serverObjectId && '|' !in d.toolName[..|d.toolName| - 1]
  }

  lemma BoundaryUnique(s: string, t: string, s1: string, t1: string)
    requires t != "" && t1 != "" && s + "|" + t == s1 + "|" + t1
    requires '|' !in s && '|' !in t[..|t| - 1]
    ensures s == s1 && t == t1
  {
    var m := s + "|" + t;
    assert m[|s|] == '|' && m[|s1|] == '|' && |s1| < |m| - 1;
    assert forall k | 0 <= k < |s| :: m[k] == s[k];
    assert forall j | |s| < j < |m| - 1 :: m[j] == t[..|t| - 1][j - |s| - 1] != '|';
    assert |s| == |s1|;
    assert s == m[..|s|] && s1 == m[..|s1|];
    assert t == m[|s| + 1..] && t1 == m[|s1| + 1..];
  }

  function BarAt(s: string): (i: nat)
    requires '|' in s
    ensures i < |s| && s[i] == '|'
  {
    if s[0] == '|' then 0 else 1 + BarAt(s[1..])
  }

  lemma BarSplits(s: string)
    requires '|' in s
    ensures s == s[..BarAt(s)] + "|" + s[BarAt(s) + 1..]
  {
    hide BarAt;
  }

  /** Other details the parser accepts that sign the same message: server and tool are cut at another bar. */
  function Rival(d: PaymentDetailsWire): PaymentDetailsWire
    requires d.toolName != "" && !Commits(d)
  {
    if '|' in d.serverObjectId then
      var i := BarAt(d.serverObjectId);
      d.(serverObjectId := d.serverObjectId[..i], toolName := d.serverObjectId[i + 1..] + "|" + d.toolName)
    else
      var i := BarAt(d.toolName[..|d.toolName| - 1]);
      d.(serverObjectId := d.serverObjectId + "|" + d.toolName[..i], toolName := d.toolName[i + 1..])
  }

  lemma RivalServerTool(d: PaymentDetailsWire)
    requires d.toolName != "" && !Commits(d)
    ensures ServerTool(Rival(d)) == ServerTool(d)
  {
    hide BarAt;
    var s, t := d.serverObjectId, d.toolName;
    if '|' in s {
      var x, y := s[..BarAt(s)], s[BarAt(s) + 1..];
      BarSplits(s);
      Reassociate(x + "|", y, "|");
      Reassociate(x + "|", y + "|", t);
    } else {
      var i := BarAt(t[..|t| - 1]);
      var x, y := t[..i], t[i + 1..];
      assert t[i] == t[..|t| - 1][i] == '|';
      assert t == x + "|" + y;
      Reassociate(s + "|", x + "|", y);
      Reassociate(s + "|", x, "|");
    }
  }

  lemma RivalAccepted(d: PaymentDetailsWire)
    requires WellFormedDetails(d) && !Commits(d)
    ensures WellFormedDetails(Rival(d)) && Rival(d).serverObjectId != d.serverObjectId
  {
    var e, s := Rival(d), d.serverObjectId;
    assert s[0] == '0' && s[1] == 'x';
    if '|' in s {
      assert BarAt(s) >= 2 && e.serverObjectId == s[..BarAt(s)];
      assert e.serverObjectId[0] == '0' && e.serverObjectId[1] == 'x';
    } else {
      assert e.serverObjectId[0] == '0' && e.serverObjectId[1] == 'x';
    }
  }

  /** Moving the boundary of server and tool leaves the message alone. */
  lemma BoundaryMoves(d: PaymentDetailsWire, e: PaymentDetailsWire)
    requires e == d.(serverObjectId := e.serverObjectId, toolName := e.toolName) && ServerTool(e) == ServerTool(d)
    ensures CanonicalMessage(e) == CanonicalMessage(d)
  {
    hide CanonicalMessage;
    hide ServerTool;
    MessageShape(d);
    MessageShape(e);
  }

  /** Accepted details that do not commit share their message and token with other accepted details. */
  lemma RivalCollides(d: PaymentDetailsWire)
    requires WellFormedDetails(d) && !Commits(d)
    ensures WellFormedDetails(Rival(d)) && Rival(d).tokenType == d.tokenType
    ensures CanonicalMessage(Rival(d)) == CanonicalMessage(d) && !SameDetails(Rival(d), d)
  {
    hide CanonicalMessage;
    hide BarAt;
    hide Commits;
    hide ServerTool;
    RivalAccepted(d);
    RivalServerTool(d);
    BoundaryMoves(d, Rival(d));
  }

  /**
   * Among the records the parser accepts and for the one token a facilitator takes, a signature over `d` commits to
   * `d` exactly when the server id holds no separator and the tool name none before its last character.
   */
  lemma CanonicalCommitsIff(d: PaymentDetailsWire)
    requires WellFormedDetails(d)
    ensures (forall e | WellFormedDetails(e) && e.tokenType == d.tokenType && CanonicalMessage(e) == CanonicalMessage(d) ::
              SameDetails(e, d))
       <==> '|' !in d.serverObjectId && '|' !in d.toolName[..|d.toolName| - 1]
  {
    hide CanonicalMessage;
    hide BarAt;
    if Commits(d) {
      forall e | WellFormedDetails(e) && e.tokenType == d.tokenType && CanonicalMessage(e) == CanonicalMessage(d)
        ensures SameDetails(e, d)
      {
        SameMessageSameRest(d, e);
        BoundaryUnique(d.serverObjectId, d.toolName, e.serverObjectId, e.toolName);
      }
    } else {
      RivalCollides(d);
    }
  }

  /** Two quotes the parser accepts, for different servers and tools, that sign one and the same message. */
  lemma TwoQuotesOneMessage()
    ensures var d := PaymentDetailsWire(Exact, SuiTestnet, "0x1|2", "t", "5", "0x2::usdsui::USDSUI", Whole(1), None);
            var e := d.(serverObjectId := "0x1", toolName := "2|t");
            && ParseDetails(Some(DetailsJson(d))) == Ok(d) && ParseDetails(Some(DetailsJson(e))) == Ok(e)
            && CanonicalMessage(d) == CanonicalMessage(e) && !SameDetails(d, e)
  {
    hide CanonicalMessage;
    hide ParseDetails;
    hide DetailsJson;
    var d := PaymentDetailsWire(Exact, SuiTestnet, "0x1|2", "t", "5", "0x2::usdsui::USDSUI", Whole(1), None);
    var e := d.(serverObjectId := "0x1", toolName := "2|t");
    assert d.tokenType[3] == ':' && d.tokenType[4] == ':';
    assert |d.serverObjectId| != |e.serverObjectId|;
    ParsePrintedDetails(d);
    ParsePrintedDetails(e);
    BoundaryMoves(d, e);
  }
}
