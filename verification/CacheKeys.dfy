/** Cache keys as text. A filter object is serialised by `JSON.stringify` with its own sorted key
    list (section 25.5.2 of ECMA-262), so the key should name the query: equal exactly for filters
    that agree on every defined field, in whatever order the fields were set. */
module CacheKeys {
  import opened SequenceFacts
  import opened Ids

  /** A field value of a filter. A number is given by its text, a string holds no lone surrogate. */
  datatype Value = Null | Bool(b: bool) | Num(text: string) | Str(s: string) | Arr(items: seq<string>)

  /** An own property of the filter object; None is `undefined`. */
  datatype Prop = Prop(name: string, value: Option<Value>)

  type Fields = map<string, Value>

  // ---- ordering property names -------------------------------------------------------------

  predicate Before(a: string, b: string) {
    if a == [] || b == [] then a == [] && b != []
    else a[0] < b[0] || (a[0] == b[0] && Before(a[1..], b[1..]))
  }

  lemma {:induction false} BeforeIsOrder(a: string, b: string, c: string)
    ensures !Before(a, a)
    ensures a == b || Before(a, b) || Before(b, a)
    ensures Before(a, b) && Before(b, c) ==> Before(a, c)
  {
    if a != [] {
      BeforeIsOrder(a[1..], if b == [] then [] else b[1..], if c == [] then [] else c[1..]);
      if b != [] && a[0] == b[0] && a[1..] == b[1..] {
        assert a == [a[0]] + a[1..] && b == [b[0]] + b[1..];
      }
    }
  }

  ghost predicate Ascending(names: seq<string>) {
    forall i, j :: 0 <= i < j < |names| ==> Before(names[i], names[j])
  }

  function InsertName(name: string, sorted: seq<string>): seq<string> {
    if sorted == [] || Before(name, sorted[0]) then [name] + sorted
    else [sorted[0]] + InsertName(name, sorted[1..])
  }

  /** `Object.keys(filter).sort()`. */
  function SortNames(names: seq<string>): seq<string> {
    if names == [] then [] else InsertName(names[0], SortNames(names[1..]))
  }

  lemma {:induction false} InsertKeepsAscending(name: string, sorted: seq<string>)
    requires Ascending(sorted) && name !in sorted
    ensures Ascending(InsertName(name, sorted))
    ensures forall x :: x in InsertName(name, sorted) <==> x == name || x in sorted
  {
    if sorted != [] {
      forall x | x in sorted ensures Before(name, sorted[0]) ==> Before(name, x) {
        var i :| 0 <= i < |sorted| && sorted[i] == x;
        BeforeIsOrder(name, sorted[0], x);
      }
      if !Before(name, sorted[0]) {
        BeforeIsOrder(name, sorted[0], name);
        InsertKeepsAscending(name, sorted[1..]);
        var rest := InsertName(name, sorted[1..]);
        forall j | 0 <= j < |rest| ensures Before(sorted[0], rest[j]) {
          assert rest[j] in rest;
        }
      }
    }
  }

  lemma {:induction false} SortIsAscending(names: seq<string>)
    requires Distinct(names)
    ensures Ascending(SortNames(names))
    ensures forall x :: x in SortNames(names) <==> x in names
  {
    if names != [] {
      forall i, j | 0 <= i < j < |names[1..]| ensures names[1..][i] != names[1..][j] {
        assert names[i + 1] != names[j + 1];
      }
      assert names[0] !in names[1..];
      SortIsAscending(names[1..]);
      InsertKeepsAscending(names[0], SortNames(names[1..]));
      assert names == [names[0]] + names[1..];
    }
  }

  // ---- reading a filter ------------------------------------------------------------------

  /** `if (filter.name) where column = filter.name`, for a text column. */
  predicate MatchesText(fields: Fields, name: string, column: string) {
    name in fields && fields[name].Str? && fields[name].s != "" ==> fields[name].s == column
  }

  /** Likewise for an id, which the database compares by what it denotes. */
  predicate MatchesId(fields: Fields, name: string, id: string) {
    name in fields && fields[name].Str? && fields[name].s != "" ==> Key(fields[name].s) == id
  }

  /** The filter gives the name a text to look for. */
  ghost predicate LooksFor(fields: Fields, name: string, text: string) {
    text != "" && name in fields && fields[name] == Str(text)
  }

  /** Asked for everything at once. */
  ghost predicate GetsAll(fields: Fields) {
    "getAll" in fields && fields["getAll"] == Bool(true)
  }

  // ---- serialisation -----------------------------------------------------------------------

  function Hex(n: nat): char
    requires n < 16
  {
    if n < 10 then '0' + n as char else 'a' + (n - 10) as char
  }

  function EscapeChar(c: char): string {
    if c == '"' then "\\\""
    else if c == '\\' then "\\\\"
    else if c == 8 as char then "\\b"
    else if c == 12 as char then "\\f"
    else if c == '\n' then "\\n"
    else if c == '\r' then "\\r"
    else if c == '\t' then "\\t"
    else if c < ' ' then "\\u00" + [Hex(c as int / 16), Hex(c as int % 16)]
    else [c]
  }

  function Escape(s: string): string {
    if s == [] then [] else EscapeChar(s[0]) + Escape(s[1..])
  }

  function Quote(s: string): string {
    "\"" + Escape(s) + "\""
  }

  function Join(parts: seq<string>): string {
    if parts == [] then ""
    else if |parts| == 1 then parts[0]
    else parts[0] + "," + Join(parts[1..])
  }

  function Quotes(xs: seq<string>): seq<string> {
    seq(|xs|, i requires 0 <= i < |xs| => Quote(xs[i]))
  }

  function ValueText(v: Value): string {
    match v
    case Null => "null"
    case Bool(b) => if b then "true" else "false"
    case Num(text) => text
    case Str(s) => Quote(s)
    case Arr(items) => "[" + Join(Quotes(items)) + "]"
  }

  datatype Member = Member(name: string, value: Value)

  function MemberText(e: Member): string {
    Quote(e.name) + ":" + ValueText(e.value)
  }

  function Members(es: seq<Member>): seq<string> {
    seq(|es|, i requires 0 <= i < |es| => MemberText(es[i]))
  }

  function ObjectText(es: seq<Member>): string {
    "{" + Join(Members(es)) + "}"
  }

  function Names(filter: seq<Prop>): seq<string> {
    seq(|filter|, i requires 0 <= i < |filter| => filter[i].name)
  }

  function Lookup(filter: seq<Prop>, name: string): Option<Value> {
    if filter == [] then None
    else if filter[0].name == name then filter[0].value
    else Lookup(filter[1..], name)
  }

  /** The properties in the order of `names`, the undefined ones skipped. */
  function Pick(filter: seq<Prop>, names: seq<string>): seq<Member> {
    if names == [] then []
    else
      var rest := Pick(filter, names[1..]);
      match Lookup(filter, names[0])
      case None => rest
      case Some(v) => [Member(names[0], v)] + rest
  }

  /** `JSON.stringify(filter, Object.keys(filter).sort())`. */
  function Stable(filter: seq<Prop>): string {
    ObjectText(Pick(filter, SortNames(Names(filter))))
  }

  function FieldsOf(filter: seq<Prop>): Fields {
    map name | name in Names(filter) && Lookup(filter, name) != None :: Lookup(filter, name).value
  }

  /** A JavaScript object has one property per name; a number's text holds only these characters. */
  ghost predicate IsObject(filter: seq<Prop>) {
    Distinct(Names(filter)) && forall name :: Lookup(filter, name).Some? ==> Printable(Lookup(filter, name).value)
  }

  const NUMERIC := "0123456789+-.e"

  ghost predicate Printable(v: Value) {
    v.Num? ==> v.text != "" && forall i :: 0 <= i < |v.text| ==> v.text[i] in NUMERIC
  }

  // ---- the text determines the entries -----------------------------------------------------

  lemma {:induction false} DropPrefix(p: string, x: string, y: string)
    requires x != y
    ensures p + x != p + y
  {
    assert (p + x)[|p|..] == x && (p + y)[|p|..] == y;
  }

  lemma EscapesDiffer(c: char, d: char, x: string, y: string)
    requires c != d
    ensures EscapeChar(c) + x != EscapeChar(d) + y
  {
    var a, b := EscapeChar(c), EscapeChar(d);
    assert (a + x)[0] == a[0] && (b + y)[0] == b[0];
    if a[0] == b[0] {
      assert (a + x)[1] == a[1] && (b + y)[1] == b[1];
      if a[1] == b[1] {
        assert (a + x)[4] == a[4] && (b + y)[4] == b[4];
        assert (a + x)[5] == a[5] && (b + y)[5] == b[5];
      }
    }
  }

  lemma EscapedStep(s: string, x: string)
    requires s != []
    ensures Escape(s) + "\"" + x == EscapeChar(s[0]) + (Escape(s[1..]) + "\"" + x)
    ensures (Escape(s) + "\"" + x)[0] != '"'
  {
  }

  /** Sequences with one head that differ have different tails. */
  lemma SameHeadTailsDiffer<T>(a: seq<T>, b: seq<T>)
    requires a != [] && b != [] && a[0] == b[0] && a != b
    ensures a[1..] != b[1..]
  {
  }

  lemma SameHeadSameTail<T>(a: seq<T>, b: seq<T>)
    requires a != [] && b != [] && a[0] == b[0] && a[1..] == b[1..]
    ensures a == b
  {
  }

  lemma {:induction false} EscapedTextsDiffer(s: string, t: string, x: string, y: string)
    requires s != t || x != y
    ensures Escape(s) + "\"" + x != Escape(t) + "\"" + y
  {
    var l, r := Escape(s) + "\"" + x, Escape(t) + "\"" + y;
    if s == [] && t == [] {
      assert l == "\"" + x && r == "\"" + y;
      DropPrefix("\"", x, y);
    } else if s == [] {
      EscapedStep(t, y);
      assert l[0] == '"';
    } else if t == [] {
      EscapedStep(s, x);
      assert r[0] == '"';
    } else {
      EscapedStep(s, x);
      EscapedStep(t, y);
      var l', r' := Escape(s[1..]) + "\"" + x, Escape(t[1..]) + "\"" + y;
      if s[0] != t[0] {
        EscapesDiffer(s[0], t[0], l', r');
      } else {
        if s != t { SameHeadTailsDiffer(s, t); }
        EscapedTextsDiffer(s[1..], t[1..], x, y);
        DropPrefix(EscapeChar(s[0]), l', r');
      }
    }
  }

  lemma QuotesDiffer(s: string, t: string, x: string, y: string)
    requires s != t || x != y
    ensures Quote(s) + x != Quote(t) + y
  {
    EscapedTextsDiffer(s, t, x, y);
    DropPrefix("\"", Escape(s) + "\"" + x, Escape(t) + "\"" + y);
    assert Quote(s) + x == "\"" + (Escape(s) + "\"" + x) && Quote(t) + y == "\"" + (Escape(t) + "\"" + y);
  }

  /** What follows the first part of a joined list. */
  function Tail(parts: seq<string>, close: string, x: string): string
    requires parts != []
  {
    if |parts| == 1 then close + x else "," + (Join(parts[1..]) + close + x)
  }

  lemma SplitJoin(parts: seq<string>, close: string, x: string)
    requires parts != []
    ensures Join(parts) + close + x == parts[0] + Tail(parts, close, x)
  {
  }

  /** Tails differ when only one list goes on, or when what comes after the comma differs. */
  lemma TailsDiffer(parts: seq<string>, others: seq<string>, close: string, x: string, y: string)
    requires parts != [] && others != [] && close != "" && close[0] != ','
    requires |parts| == 1 && |others| == 1 ==> x != y
    requires |parts| > 1 && |others| > 1 ==> Join(parts[1..]) + close + x != Join(others[1..]) + close + y
    ensures Tail(parts, close, x) != Tail(others, close, y)
  {
    if |parts| > 1 && |others| > 1 {
      DropPrefix(",", Join(parts[1..]) + close + x, Join(others[1..]) + close + y);
    } else if |parts| == 1 && |others| == 1 {
      DropPrefix(close, x, y);
    } else {
      assert Tail(parts, close, x)[0] != Tail(others, close, y)[0];
    }
  }

  lemma {:induction false} ArraysDiffer(xs: seq<string>, ys: seq<string>, x: string, y: string)
    requires xs != ys || x != y
    ensures Join(Quotes(xs)) + "]" + x != Join(Quotes(ys)) + "]" + y
    decreases |xs|, 1
  {
    var l, r := Join(Quotes(xs)) + "]" + x, Join(Quotes(ys)) + "]" + y;
    if xs == [] && ys == [] {
      assert l == "]" + x && r == "]" + y;
      DropPrefix("]", x, y);
    } else if xs == [] {
      SplitJoin(Quotes(ys), "]", y);
      assert l[0] == ']' && r[0] == '"';
    } else if ys == [] {
      SplitJoin(Quotes(xs), "]", x);
      assert l[0] == '"' && r[0] == ']';
    } else {
      SplitJoin(Quotes(xs), "]", x);
      SplitJoin(Quotes(ys), "]", y);
      var l', r' := Tail(Quotes(xs), "]", x), Tail(Quotes(ys), "]", y);
      if xs[0] == ys[0] {
        ArrayTailsDiffer(xs, ys, x, y);
      }
      QuotesDiffer(xs[0], ys[0], l', r');
    }
  }

  lemma {:induction false} ArrayTailsDiffer(xs: seq<string>, ys: seq<string>, x: string, y: string)
    requires xs != [] && ys != [] && xs[0] == ys[0] && (xs != ys || x != y)
    ensures Tail(Quotes(xs), "]", x) != Tail(Quotes(ys), "]", y)
    decreases |xs|, 0
  {
    assert xs == [xs[0]] + xs[1..] && ys == [ys[0]] + ys[1..];
    assert Quotes(xs)[1..] == Quotes(xs[1..]) && Quotes(ys)[1..] == Quotes(ys[1..]);
    if |xs| > 1 && |ys| > 1 {
      ArraysDiffer(xs[1..], ys[1..], x, y);
    }
    TailsDiffer(Quotes(xs), Quotes(ys), "]", x, y);
  }

  /** What may follow a value inside an object. */
  predicate Follows(x: string) {
    x != "" && (x[0] == ',' || x[0] == '}')
  }

  lemma NumbersDiffer(a: string, b: string, x: string, y: string)
    requires Printable(Num(a)) && Printable(Num(b)) && Follows(x) && Follows(y) && (a != b || x != y)
    ensures a + x != b + y
  {
    if |a| < |b| {
      assert (a + x)[|a|] == x[0] && (b + y)[|a|] == b[|a|];
    } else if |b| < |a| {
      assert (a + x)[|b|] == a[|b|] && (b + y)[|b|] == y[0];
    } else {
      assert (a + x)[..|a|] == a && (b + y)[..|a|] == b;
      assert (a + x)[|a|..] == x && (b + y)[|a|..] == y;
    }
  }

  /** The first character tells the kinds of values apart. */
  function Kind(v: Value): nat {
    match v
    case Null => 0
    case Bool(b) => if b then 1 else 2
    case Num(_) => 3
    case Str(_) => 4
    case Arr(_) => 5
  }

  lemma KindByFirstChar(v: Value, x: string)
    requires Printable(v)
    ensures ValueText(v) + x != ""
    ensures var c := (ValueText(v) + x)[0];
            Kind(v) == if c == 'n' then 0 else if c == 't' then 1 else if c == 'f' then 2
                       else if c == '"' then 4 else if c == '[' then 5 else 3
  {
    assert ValueText(v) != "" && (ValueText(v) + x)[0] == ValueText(v)[0];
  }

  lemma ArrayTextsDiffer(xs: seq<string>, ys: seq<string>, x: string, y: string)
    requires xs != ys || x != y
    ensures "[" + Join(Quotes(xs)) + "]" + x != "[" + Join(Quotes(ys)) + "]" + y
  {
    ArraysDiffer(xs, ys, x, y);
    var l, r := Join(Quotes(xs)) + "]" + x, Join(Quotes(ys)) + "]" + y;
    DropPrefix("[", l, r);
    assert "[" + Join(Quotes(xs)) + "]" + x == "[" + l && "[" + Join(Quotes(ys)) + "]" + y == "[" + r;
  }

  lemma ValuesDiffer(v: Value, w: Value, x: string, y: string)
    requires Printable(v) && Printable(w) && Follows(x) && Follows(y) && (v != w || x != y)
    ensures ValueText(v) + x != ValueText(w) + y
  {
    KindByFirstChar(v, x);
    KindByFirstChar(w, y);
    if Kind(v) == Kind(w) {
      match v {
        case Null => DropPrefix(ValueText(v), x, y);
        case Bool(_) => DropPrefix(ValueText(v), x, y);
        case Num(a) => NumbersDiffer(a, w.text, x, y);
        case Str(s) => QuotesDiffer(s, w.s, x, y);
        case Arr(xs) => ArrayTextsDiffer(xs, w.items, x, y);
      }
    }
  }

  ghost predicate AllPrintable(es: seq<Member>) {
    forall i :: 0 <= i < |es| ==> Printable(es[i].value)
  }

  /** A quoted name, a colon and what follows. */
  lemma NamedTextsDiffer(a: string, b: string, t: string, u: string, x: string, y: string)
    requires a != b || t + x != u + y
    ensures Quote(a) + ":" + t + x != Quote(b) + ":" + u + y
  {
    var l, r := t + x, u + y;
    if a == b {
      DropPrefix(":", l, r);
    }
    QuotesDiffer(a, b, ":" + l, ":" + r);
    assert Quote(a) + ":" + t + x == Quote(a) + (":" + l) && Quote(b) + ":" + u + y == Quote(b) + (":" + r);
  }

  lemma MembersDiffer(d: Member, e: Member, x: string, y: string)
    requires Printable(d.value) && Printable(e.value) && Follows(x) && Follows(y) && (d != e || x != y)
    ensures MemberText(d) + x != MemberText(e) + y
  {
    if d.name == e.name {
      ValuesDiffer(d.value, e.value, x, y);
    }
    NamedTextsDiffer(d.name, e.name, ValueText(d.value), ValueText(e.value), x, y);
  }

  lemma {:induction false} EntriesDiffer(ds: seq<Member>, es: seq<Member>)
    requires AllPrintable(ds) && AllPrintable(es) && ds != es
    ensures Join(Members(ds)) + "}" + "" != Join(Members(es)) + "}" + ""
    decreases |ds|, 1
  {
    var l, r := Join(Members(ds)) + "}" + "", Join(Members(es)) + "}" + "";
    if ds == [] {
      SplitJoin(Members(es), "}", "");
      assert l[0] == '}' && r[0] == '"';
    } else if es == [] {
      SplitJoin(Members(ds), "}", "");
      assert l[0] == '"' && r[0] == '}';
    } else {
      SplitJoin(Members(ds), "}", "");
      SplitJoin(Members(es), "}", "");
      if ds[0] == es[0] {
        EntryTailsDiffer(ds, es);
      }
      MembersDiffer(ds[0], es[0], Tail(Members(ds), "}", ""), Tail(Members(es), "}", ""));
    }
  }

  lemma MembersTail(es: seq<Member>)
    requires es != []
    ensures Members(es)[1..] == Members(es[1..]) && |Members(es)| == |es|
  {
  }

  lemma {:induction false} EntryTailsDiffer(ds: seq<Member>, es: seq<Member>)
    requires AllPrintable(ds) && AllPrintable(es) && ds != es && ds != [] && es != [] && ds[0] == es[0]
    ensures Tail(Members(ds), "}", "") != Tail(Members(es), "}", "")
    decreases |ds|, 0
  {
    SameHeadTailsDiffer(ds, es);
    MembersTail(ds);
    MembersTail(es);
    if |ds| > 1 && |es| > 1 {
      EntriesDiffer(ds[1..], es[1..]);
    }
    TailsDiffer(Members(ds), Members(es), "}", "", "");
  }

  lemma ObjectTextIsInjective(ds: seq<Member>, es: seq<Member>)
    requires AllPrintable(ds) && AllPrintable(es)
    ensures ObjectText(ds) == ObjectText(es) <==> ds == es
  {
    if ds != es {
      EntriesDiffer(ds, es);
      var l, r := Join(Members(ds)) + "}" + "", Join(Members(es)) + "}" + "";
      DropPrefix("{", l, r);
      assert ObjectText(ds) == "{" + l && ObjectText(es) == "{" + r;
    }
  }

  // ---- the entries are the defined fields in name order ------------------------------------

  ghost predicate AscendingEntries(es: seq<Member>) {
    forall i, j :: 0 <= i < j < |es| ==> Before(es[i].name, es[j].name)
  }

  ghost predicate Lists(es: seq<Member>, fields: Fields) {
    && (forall i :: 0 <= i < |es| ==> es[i].name in fields && fields[es[i].name] == es[i].value)
    && (forall name :: name in fields ==> exists i :: 0 <= i < |es| && es[i].name == name)
  }

  lemma {:induction false} PickedEntries(filter: seq<Prop>, names: seq<string>)
    requires Ascending(names)
    ensures var es := Pick(filter, names);
            && AscendingEntries(es)
            && (forall i :: 0 <= i < |es| ==> es[i].name in names && Lookup(filter, es[i].name) == Some(es[i].value))
            && (forall name :: name in names && Lookup(filter, name).Some? ==>
                exists i :: 0 <= i < |es| && es[i].name == name)
  {
    if names != [] {
      PickedEntries(filter, names[1..]);
      var rest, es := Pick(filter, names[1..]), Pick(filter, names);
      assert names == [names[0]] + names[1..];
      forall i | 0 <= i < |rest| ensures Before(names[0], rest[i].name) {
        assert rest[i].name in names[1..];
      }
      forall name | name in names && Lookup(filter, name).Some?
        ensures exists i :: 0 <= i < |es| && es[i].name == name
      {
        if name == names[0] {
          assert es[0].name == name;
        } else {
          var i :| 0 <= i < |rest| && rest[i].name == name;
          assert es[if |es| == |rest| then i else i + 1].name == name;
        }
      }
    }
  }

  lemma SortedEntriesListFields(filter: seq<Prop>)
    requires IsObject(filter)
    ensures var es := Pick(filter, SortNames(Names(filter)));
            AscendingEntries(es) && Lists(es, FieldsOf(filter)) && AllPrintable(es)
  {
    SortIsAscending(Names(filter));
    PickedEntries(filter, SortNames(Names(filter)));
  }

  lemma FirstEntryIsLeast(es: seq<Member>, fields: Fields)
    requires AscendingEntries(es) && Lists(es, fields) && es != []
    ensures forall name :: name in fields ==> name == es[0].name || Before(es[0].name, name)
  {
  }

  lemma EmptyListing(es: seq<Member>, fields: Fields)
    requires Lists(es, fields)
    ensures es == [] <==> fields == map[]
  {
    if es != [] {
      assert es[0].name in fields;
    }
  }

  /** The fields determine their listing in name order. */
  lemma {:induction false} ListingIsUnique(ds: seq<Member>, es: seq<Member>, fields: Fields)
    requires AscendingEntries(ds) && AscendingEntries(es) && Lists(ds, fields) && Lists(es, fields)
    ensures ds == es
  {
    EmptyListing(ds, fields);
    EmptyListing(es, fields);
    if ds != [] {
      SameFirstEntry(ds, es, fields);
      TailLists(ds, fields);
      TailLists(es, fields);
      ListingIsUnique(ds[1..], es[1..], fields - {ds[0].name});
      SameHeadSameTail(ds, es);
    }
  }

  lemma SameFirstEntry(ds: seq<Member>, es: seq<Member>, fields: Fields)
    requires AscendingEntries(ds) && AscendingEntries(es) && Lists(ds, fields) && Lists(es, fields)
    requires ds != [] && es != []
    ensures ds[0] == es[0]
  {
    FirstEntryIsLeast(ds, fields);
    FirstEntryIsLeast(es, fields);
    BeforeIsOrder(ds[0].name, es[0].name, ds[0].name);
  }

  lemma TailLists(es: seq<Member>, fields: Fields)
    requires AscendingEntries(es) && Lists(es, fields) && es != []
    ensures AscendingEntries(es[1..]) && Lists(es[1..], fields - {es[0].name})
  {
    var smaller := fields - {es[0].name};
    forall i | 0 <= i < |es[1..]| ensures es[1..][i].name in smaller && smaller[es[1..][i].name] == es[1..][i].value {
      assert Before(es[0].name, es[i + 1].name);
      BeforeIsOrder(es[0].name, es[0].name, es[0].name);
    }
    forall name | name in smaller ensures exists i :: 0 <= i < |es[1..]| && es[1..][i].name == name {
      var i :| 0 <= i < |es| && es[i].name == name;
      assert es[1..][i - 1].name == name;
    }
  }

  /** Two filters serialise alike exactly when they agree on every defined field. */
  lemma StableIsCanonical(f: seq<Prop>, g: seq<Prop>)
    requires IsObject(f) && IsObject(g)
    ensures Stable(f) == Stable(g) <==> FieldsOf(f) == FieldsOf(g)
  {
    var ds, es := Pick(f, SortNames(Names(f))), Pick(g, SortNames(Names(g)));
    SortedEntriesListFields(f);
    SortedEntriesListFields(g);
    ObjectTextIsInjective(ds, es);
    if FieldsOf(f) == FieldsOf(g) {
      ListingIsUnique(ds, es, FieldsOf(f));
    }
    if ds == es {
      SameListingSameFields(ds, FieldsOf(f), FieldsOf(g));
    }
  }

  lemma SameListingSameFields(es: seq<Member>, a: Fields, b: Fields)
    requires Lists(es, a) && Lists(es, b)
    ensures a == b
  {
  }

  // ---- whole keys --------------------------------------------------------------------------

  /** UUIDs, the only ids that reach a key, have no colon. */
  predicate NoColon(s: string) {
    ':' !in s
  }

  lemma {:induction false} SplitAtColon(a: string, x: string, b: string, y: string)
    requires NoColon(a) && NoColon(b) && (a != b || x != y)
    ensures a + ":" + x != b + ":" + y
  {
    var l, r := a + ":" + x, b + ":" + y;
    if |a| < |b| {
      assert l[|a|] == ':' && r[|a|] == b[|a|];
    } else if |b| < |a| {
      assert l[|b|] == a[|b|] && r[|b|] == ':';
    } else {
      assert l[..|a|] == a && r[..|a|] == b && l[|a| + 1..] == x && r[|a| + 1..] == y;
    }
  }

  lemma KeysDiffer(prefix: string, a: string, x: string, b: string, y: string)
    requires NoColon(a) && NoColon(b) && (a != b || x != y)
    ensures prefix + (a + ":" + x) != prefix + (b + ":" + y)
  {
    SplitAtColon(a, x, b, y);
    DropPrefix(prefix, a + ":" + x, b + ":" + y);
  }

  /** A key that goes on differently after a common prefix. */
  lemma DifferAfter(prefix: string, x: string, y: string)
    requires x != "" && y != "" && x[0] != y[0]
    ensures prefix + x != prefix + y
  {
    assert (prefix + x)[|prefix|] == x[0] && (prefix + y)[|prefix|] == y[0];
  }

  const REGISTRY := "__registry__"
  const HOTEL_LISTS := "hotels:list:"
  const PAYMENT_LISTS := "payments:list:"
  const ROOM_LISTS := "rooms:list:"

  function Role(isAdmin: bool): string { if isAdmin then "admin" else "guest" }

  function HotelListKey(filter: seq<Prop>, isAdmin: bool): string {
    HOTEL_LISTS + (Role(isAdmin) + ":" + Stable(filter))
  }

  function HotelDetailKey(id: string, isAdmin: bool): string {
    "hotels:detail:" + (Role(isAdmin) + ":" + id)
  }

  const HOTEL_REGISTRY := HOTEL_LISTS + REGISTRY

  function Subject(isAdmin: bool): string { if isAdmin then "ADMIN" else "USER" }

  function PaymentListKey(filter: seq<Prop>, isAdmin: bool, userId: string): string {
    PAYMENT_LISTS + (Subject(isAdmin) + ":" + (userId + ":" + Stable(filter)))
  }

  const PAYMENT_REGISTRY := PAYMENT_LISTS + REGISTRY

  function RoomListKey(hotelId: string, filter: seq<Prop>): string {
    ROOM_LISTS + (hotelId + ":" + Stable(filter))
  }

  function RoomRegistryKey(hotelId: string): string {
    ROOM_LISTS + (hotelId + ":" + REGISTRY)
  }

  lemma RolesAreNames(a: bool, b: bool)
    ensures Role(a) != "" && NoColon(Role(a)) && Role(a)[0] != REGISTRY[0]
    ensures Subject(a) != "" && NoColon(Subject(a)) && Subject(a)[0] != REGISTRY[0]
    ensures Role(a) == Role(b) <==> a == b
    ensures Subject(a) == Subject(b) <==> a == b
  {
  }

  lemma StableStartsWithBrace(filter: seq<Prop>)
    ensures Stable(filter) != "" && Stable(filter)[0] == '{'
  {
  }

  /** The hotel list key names the role and the defined fields, and is not the registry key. */
  lemma HotelListKeyIsCanonical(f: seq<Prop>, admin: bool, g: seq<Prop>, admin': bool)
    requires IsObject(f) && IsObject(g)
    ensures HotelListKey(f, admin) == HotelListKey(g, admin') <==> admin == admin' && FieldsOf(f) == FieldsOf(g)
    ensures HotelListKey(f, admin) != HOTEL_REGISTRY
  {
    StableIsCanonical(f, g);
    RolesAreNames(admin, admin');
    RolesAreNames(admin', admin);
    if admin != admin' || Stable(f) != Stable(g) {
      KeysDiffer(HOTEL_LISTS, Role(admin), Stable(f), Role(admin'), Stable(g));
    }
    DifferAfter(HOTEL_LISTS, Role(admin) + ":" + Stable(f), REGISTRY);
  }

  /** Detail keys are neither list keys nor the registry key. */
  lemma HotelKeysApart(f: seq<Prop>, admin: bool, id: string, admin': bool)
    ensures HotelDetailKey(id, admin') != HotelListKey(f, admin)
    ensures HotelDetailKey(id, admin') != HOTEL_REGISTRY
  {
    var detail := HotelDetailKey(id, admin');
    assert detail[7] == 'd';
    assert HotelListKey(f, admin)[7] == 'l';
    assert HOTEL_REGISTRY[7] == 'l';
  }

  lemma HotelDetailKeyIsCanonical(id: string, admin: bool, id': string, admin': bool)
    ensures HotelDetailKey(id, admin) == HotelDetailKey(id', admin') <==> id == id' && admin == admin'
  {
    RolesAreNames(admin, admin');
    RolesAreNames(admin', admin);
    if id != id' || admin != admin' {
      KeysDiffer("hotels:detail:", Role(admin), id, Role(admin'), id');
    }
  }

  /** The payment list key names the caller and the defined fields, and is not the registry key. */
  lemma PaymentListKeyIsCanonical(f: seq<Prop>, admin: bool, id: string, g: seq<Prop>, admin': bool, id': string)
    requires IsObject(f) && IsObject(g) && NoColon(id) && NoColon(id')
    ensures PaymentListKey(f, admin, id) == PaymentListKey(g, admin', id') <==>
            admin == admin' && id == id' && FieldsOf(f) == FieldsOf(g)
    ensures PaymentListKey(f, admin, id) != PAYMENT_REGISTRY
  {
    StableIsCanonical(f, g);
    RolesAreNames(admin, admin');
    RolesAreNames(admin', admin);
    var l, r := id + ":" + Stable(f), id' + ":" + Stable(g);
    if id != id' || Stable(f) != Stable(g) {
      SplitAtColon(id, Stable(f), id', Stable(g));
    }
    if admin != admin' || l != r {
      KeysDiffer(PAYMENT_LISTS, Subject(admin), l, Subject(admin'), r);
    }
    DifferAfter(PAYMENT_LISTS, Subject(admin) + ":" + l, REGISTRY);
  }

  /** The room list key names the hotel and the defined fields; no list key of any hotel is a
      registry key of any hotel, and each hotel has its own registry key. */
  lemma RoomListKeyIsCanonical(hotel: string, f: seq<Prop>, hotel': string, g: seq<Prop>)
    requires IsObject(f) && IsObject(g) && NoColon(hotel) && NoColon(hotel')
    ensures RoomListKey(hotel, f) == RoomListKey(hotel', g) <==> hotel == hotel' && FieldsOf(f) == FieldsOf(g)
    ensures RoomListKey(hotel, f) != RoomRegistryKey(hotel')
    ensures RoomRegistryKey(hotel) == RoomRegistryKey(hotel') <==> hotel == hotel'
  {
    StableIsCanonical(f, g);
    StableStartsWithBrace(f);
    if hotel != hotel' || Stable(f) != Stable(g) {
      KeysDiffer(ROOM_LISTS, hotel, Stable(f), hotel', Stable(g));
    }
    KeysDiffer(ROOM_LISTS, hotel, Stable(f), hotel', REGISTRY);
    if hotel != hotel' {
      KeysDiffer(ROOM_LISTS, hotel, REGISTRY, hotel', REGISTRY);
    }
  }

  lemma LookupOfTwo(a: Prop, b: Prop, name: string)
    ensures Lookup([a, b], name) == if a.name == name then a.value else if b.name == name then b.value else None
  {
    assert [a, b][1..] == [b] && [b][1..] == [];
    assert Lookup([b], name) == if b.name == name then b.value else Lookup([], name);
  }

  /** The fields of a filter are its defined properties with their values. */
  lemma {:induction false} FieldsAreDefined(filter: seq<Prop>, i: nat)
    requires Distinct(Names(filter)) && i < |filter|
    ensures filter[i].value.Some? ==>
              filter[i].name in FieldsOf(filter) && FieldsOf(filter)[filter[i].name] == filter[i].value.value
    ensures filter[i].value == None ==> filter[i].name !in FieldsOf(filter)
    ensures forall name :: name in FieldsOf(filter) ==> exists k :: 0 <= k < |filter| && filter[k].name == name
  {
    LookupFinds(filter, i);
    assert Names(filter)[i] == filter[i].name;
    forall name | name in FieldsOf(filter) ensures exists k :: 0 <= k < |filter| && filter[k].name == name {
      var k :| 0 <= k < |Names(filter)| && Names(filter)[k] == name;
      assert filter[k].name == name;
    }
  }

  lemma {:induction false} LookupFinds(filter: seq<Prop>, i: nat)
    requires Distinct(Names(filter)) && i < |filter|
    ensures Lookup(filter, filter[i].name) == filter[i].value
  {
    if i > 0 {
      assert Names(filter)[0] != Names(filter)[i];
      forall a, b | 0 <= a < b < |filter[1..]| ensures Names(filter[1..])[a] != Names(filter[1..])[b] {
        assert Names(filter)[a + 1] != Names(filter)[b + 1];
      }
      LookupFinds(filter[1..], i - 1);
    }
  }
}
