/** What the model asks of a JSON library can be met: a printer that never prints two values alike, on one line. */
module JsonCodec {
  import opened Common
  import opened Decimal
  import opened Json

  function TextCode(s: string): string {
    if s == "" then ";" else Print(s[0] as int) + "|" + TextCode(s[1..])
  }

  /** A text for every JSON value, from which it can be told where the value ends. */
  ghost function Code(j: Json): string
    decreases j, 1, 0
  {
    match j
    case JNull => "n"
    case JBool(b) => if b then "t" else "f"
    case JNumber(n) => "#" + (PrintNumber(n) + "|")
    case JString(s) => "'" + TextCode(s)
    case JArray(_) => "[" + ItemsCode(j, 0)
    case JObject(fields) => "{" + FieldsCode(j, fields)
  }

  ghost function ItemsCode(j: Json, i: nat): string
    requires j.JArray? && i <= |j.items|
    decreases j, 0, |j.items| - i
  {
    if i == |j.items| then "]" else "," + (Code(j.items[i]) + ItemsCode(j, i + 1))
  }

  predicate PartOf(j: Json, m: map<string, Json>) {
    j.JObject? && forall k | k in m :: k in j.fields && j.fields[k] == m[k]
  }

  ghost function FieldsCode(j: Json, m: map<string, Json>): string
    requires PartOf(j, m)
    decreases j, 0, |m|
  {
    if m == map[] then "}" else
    var k :| k in m;
    "," + (TextCode(k) + (Code(j.fields[k]) + FieldsCode(j, m - {k})))
  }

  // ----- nothing is printed like something else -----

  lemma {:induction false} TextsDiffer(a: string, b: string, r: string, t: string)
    requires TextCode(a) + r == TextCode(b) + t
    ensures a == b && r == t
  {
    CodeStarts(a);
    CodeStarts(b);
    assert (TextCode(a) + r)[0] == TextCode(a)[0] && (TextCode(b) + t)[0] == TextCode(b)[0];
    if a == "" {
      assert r == (";" + r)[1..] && t == (";" + t)[1..];
    } else {
      var x, y := TextCode(a[1..]), TextCode(b[1..]);
      var m, n := Print(a[0] as int), Print(b[0] as int);
      Peel(m, x, r);
      Peel(n, y, t);
      DigitsHaveNoBar(a[0] as int);
      DigitsHaveNoBar(b[0] as int);
      BarSplitUnique(m, n, x + r, y + t);
      PrintInjective(a[0] as int, b[0] as int);
      TextsDiffer(a[1..], b[1..], r, t);
      assert a == [a[0]] + a[1..] && b == [b[0]] + b[1..];
    }
  }

  lemma Peel(m: string, x: string, r: string)
    ensures (m + "|" + x) + r == m + "|" + (x + r)
  {
  }

  lemma CodeStarts(s: string)
    ensures TextCode(s) != "" && (TextCode(s)[0] == ';' <==> s == "")
  {
    if s != "" {
      var digits := Print(s[0] as int);
      assert IsDigit(digits[0]);
    }
  }

  /** The first character tells the kind of value. */
  function Mark(j: Json): char {
    match j
    case JNull => 'n'
    case JBool(b) => if b then 't' else 'f'
    case JNumber(_) => '#'
    case JString(_) => '\''
    case JArray(_) => '['
    case JObject(_) => '{'
  }

  ghost function Rest(j: Json): string {
    match j
    case JNull => ""
    case JBool(_) => ""
    case JNumber(n) => PrintNumber(n) + "|"
    case JString(s) => TextCode(s)
    case JArray(_) => ItemsCode(j, 0)
    case JObject(fields) => FieldsCode(j, fields)
  }

  lemma CodeIsMarkAndRest(j: Json)
    ensures Code(j) == [Mark(j)] + Rest(j)
  {
  }

  lemma HeadAndTail(c: char, d: char, x: string, y: string, r: string, t: string)
    requires ([c] + x) + r == ([d] + y) + t
    ensures c == d && x + r == y + t
  {
    var m := ([c] + x) + r;
    assert m[0] == c && m[0] == d;
    assert m[1..] == x + r && m[1..] == y + t;
  }

  lemma SameTail(x: string, r: string, t: string)
    requires x + r == x + t
    ensures r == t
  {
    assert r == (x + r)[|x|..] && t == (x + t)[|x|..];
  }

  lemma SameHead(x: string, y: string, r: string, t: string)
    requires x != "" && y != "" && x + r == y + t
    ensures x[0] == y[0]
  {
    assert (x + r)[0] == x[0] && (y + t)[0] == y[0];
  }

  /** Whatever follows, the text of a value gives the value back, and what follows it. */
  lemma {:induction false} CodesDiffer(a: Json, b: Json, r: string, t: string)
    requires Code(a) + r == Code(b) + t
    ensures a == b && r == t
    decreases a, 1, 0
  {
    hide Code;
    hide ItemsCode;
    hide FieldsCode;
    hide TextCode;
    CodeIsMarkAndRest(a);
    CodeIsMarkAndRest(b);
    HeadAndTail(Mark(a), Mark(b), Rest(a), Rest(b), r, t);
    match a {
      case JNumber(m) => NumbersDiffer(m, b.n, r, t);
      case JString(s) => TextsDiffer(s, b.s, r, t);
      case JArray(_) => ItemsDiffer(a, b, 0, 0, r, t);
      case JObject(fields) => FieldsDiffer(a, b, fields, b.fields, r, t);
      case _ => assert "" + r == r && "" + t == t;
    }
  }

  lemma NumbersDiffer(m: JsNumber, n: JsNumber, r: string, t: string)
    requires (PrintNumber(m) + "|") + r == (PrintNumber(n) + "|") + t
    ensures m == n && r == t
  {
    PlainNumber(m);
    PlainNumber(n);
    BarSplitUnique(PrintNumber(m), PrintNumber(n), r, t);
    PrintNumberInjective(m, n);
  }

  lemma {:induction false} ItemsDiffer(a: Json, b: Json, i: nat, k: nat, r: string, t: string)
    requires a.JArray? && b.JArray? && i <= |a.items| && k <= |b.items|
    requires ItemsCode(a, i) + r == ItemsCode(b, k) + t
    ensures a.items[i..] == b.items[k..] && r == t
    decreases a, 0, |a.items| - i
  {
    ItemsStart(a, i);
    ItemsStart(b, k);
    if i == |a.items| || k == |b.items| {
      SameHead(ItemsCode(a, i), ItemsCode(b, k), r, t);
      assert i == |a.items| && k == |b.items|;
      SameTail("]", r, t);
    } else {
      var x, y := ItemsCode(a, i + 1), ItemsCode(b, k + 1);
      hide *;
      HeadAndTail(',', ',', Code(a.items[i]) + x, Code(b.items[k]) + y, r, t);
      Reassociate(Code(a.items[i]), x, r);
      Reassociate(Code(b.items[k]), y, t);
      CodesDiffer(a.items[i], b.items[k], x + r, y + t);
      ItemsDiffer(a, b, i + 1, k + 1, r, t);
      assert a.items[i..] == [a.items[i]] + a.items[i + 1..] && b.items[k..] == [b.items[k]] + b.items[k + 1..];
    }
  }

  lemma ItemsStart(j: Json, i: nat)
    requires j.JArray? && i <= |j.items|
    ensures i == |j.items| ==> ItemsCode(j, i) == "]"
    ensures i < |j.items| ==> ItemsCode(j, i) == [','] + (Code(j.items[i]) + ItemsCode(j, i + 1))
  {
  }

  lemma FieldsStart(j: Json, m: map<string, Json>) returns (k: string)
    requires PartOf(j, m)
    ensures m == map[] ==> FieldsCode(j, m) == "}"
    ensures m != map[] ==>
      && k in m && k in j.fields
      && FieldsCode(j, m) == [','] + (TextCode(k) + (Code(j.fields[k]) + FieldsCode(j, m - {k})))
  {
    k := "";
    if m != map[] {
      k :| k in m && FieldsCode(j, m) == "," + (TextCode(k) + (Code(j.fields[k]) + FieldsCode(j, m - {k})));
    }
  }

  lemma SplitField(x: string, y: string, z: string, r: string)
    ensures (x + (y + z)) + r == x + (y + (z + r))
  {
  }

  lemma {:induction false} FieldsDiffer(
    a: Json, b: Json, m: map<string, Json>, n: map<string, Json>, r: string, t: string)
    requires PartOf(a, m) && PartOf(b, n) && FieldsCode(a, m) + r == FieldsCode(b, n) + t
    ensures m == n && r == t
    decreases a, 0, |m|
  {
    hide Code;
    hide FieldsCode;
    hide TextCode;
    var k := FieldsStart(a, m);
    var l := FieldsStart(b, n);
    if m == map[] || n == map[] {
      SameHead(FieldsCode(a, m), FieldsCode(b, n), r, t);
      assert m == map[] && n == map[];
      SameTail("}", r, t);
    } else {
      var x, y := FieldsCode(a, m - {k}), FieldsCode(b, n - {l});
      var v, w := Code(a.fields[k]), Code(b.fields[l]);
      HeadAndTail(',', ',', TextCode(k) + (v + x), TextCode(l) + (w + y), r, t);
      SplitField(TextCode(k), v, x, r);
      SplitField(TextCode(l), w, y, t);
      TextsDiffer(k, l, v + (x + r), w + (y + t));
      CodesDiffer(a.fields[k], b.fields[l], x + r, y + t);
      FieldsDiffer(a, b, m - {k}, n - {k}, r, t);
      SameField(m, n, k);
    }
  }

  lemma SameField(m: map<string, Json>, n: map<string, Json>, k: string)
    requires k in m && k in n && m[k] == n[k] && m - {k} == n - {k}
    ensures m == n
  {
    forall x ensures x in m <==> x in n {
      assert x != k ==> (x in m <==> x in m - {k}) && (x in n <==> x in n - {k});
    }
    forall x | x in m ensures m[x] == n[x] {
      if x != k {
        assert m[x] == (m - {k})[x] && n[x] == (n - {k})[x];
      }
    }
  }

  // ----- one line -----

  lemma OneLineConcat(a: string, b: string)
    requires OneLine(a) && OneLine(b)
    ensures OneLine(a + b)
  {
  }

  lemma DigitsOneLine(n: int)
    ensures OneLine(PrintInt(n))
  {
    var digits := Print(Max(n, -n));
    assert forall i | 0 <= i < |digits| :: IsDigit(digits[i]);
  }

  lemma {:induction false} TextOneLine(s: string)
    ensures OneLine(TextCode(s))
  {
    if s != "" {
      DigitsOneLine(s[0] as int);
      TextOneLine(s[1..]);
      OneLineConcat(Print(s[0] as int), "|");
      OneLineConcat(Print(s[0] as int) + "|", TextCode(s[1..]));
    }
  }

  lemma {:induction false} CodeOneLine(j: Json)
    ensures OneLine(Code(j)) && Code(j) != ""
    decreases j, 1, 0
  {
    CodeIsMarkAndRest(j);
    hide Code;
    hide TextCode;
    match j {
      case JNumber(n) => PlainNumber(n); OneLineConcat(PrintNumber(n), "|");
      case JString(s) => TextOneLine(s);
      case JArray(_) => ItemsOneLine(j, 0);
      case JObject(fields) => FieldsOneLine(j, fields);
      case _ =>
    }
    OneLineConcat([Mark(j)], Rest(j));
  }

  lemma {:induction false} ItemsOneLine(j: Json, i: nat)
    requires j.JArray? && i <= |j.items|
    ensures OneLine(ItemsCode(j, i))
    decreases j, 0, |j.items| - i
  {
    hide Code;
    ItemsStart(j, i);
    if i < |j.items| {
      CodeOneLine(j.items[i]);
      ItemsOneLine(j, i + 1);
      hide OneLine;
      OneLineConcat(Code(j.items[i]), ItemsCode(j, i + 1));
      CommaOneLine(Code(j.items[i]) + ItemsCode(j, i + 1));
    }
  }

  lemma CommaOneLine(s: string)
    requires OneLine(s)
    ensures OneLine([','] + s)
  {
  }

  lemma {:induction false} FieldsOneLine(j: Json, m: map<string, Json>)
    requires PartOf(j, m)
    ensures OneLine(FieldsCode(j, m))
    decreases j, 0, |m|
  {
    hide Code;
    hide FieldsCode;
    hide TextCode;
    var k := FieldsStart(j, m);
    if m != map[] {
      TextOneLine(k);
      CodeOneLine(j.fields[k]);
      FieldsOneLine(j, m - {k});
      OneLineConcat(Code(j.fields[k]), FieldsCode(j, m - {k}));
      OneLineConcat(TextCode(k), Code(j.fields[k]) + FieldsCode(j, m - {k}));
      CommaOneLine(TextCode(k) + (Code(j.fields[k]) + FieldsCode(j, m - {k})));
    }
  }

  /** Some codec is sound, so what is proved of all sound codecs is proved of something. */
  lemma SoundCodecExists() returns (c: Codec)
    ensures Sound(c)
  {
    hide Code;
    c := Codec(j => Code(j), s => if exists j :: Code(j) == s then var j :| Code(j) == s; Some(j) else None);
    forall j: Json ensures c.parse(c.stringify(j)) == Some(j) && OneLine(c.stringify(j)) && c.stringify(j) != "" {
      CodeOneLine(j);
      var i := c.parse(Code(j)).value;
      assert Code(i) + "" == Code(j) + "";
      CodesDiffer(i, j, "", "");
    }
  }
}
