/** The text by which two progress records are compared: object keys are sorted, everything else is
    printed in place (src/progress.ts:136-152). */
module CanonicalJson {
  import opened Sequences
  import opened Sorting

  // A number is given by the text it prints as.
  datatype Json =
    | JNull
    | JBool(value: bool)
    | JNumber(text: string)
    | JString(chars: string)
    | JArray(items: seq<Json>)
    | JObject(members: seq<Member<Json>>)

  datatype Member<T> = Member(key: string, value: T)

  predicate NumberChar(c: char) {
    '0' <= c <= '9' || c == '-' || c == '+' || c == '.' || c == 'e'
  }

  predicate NumberText(s: string) {
    s != "" && s[0] != 'e' && forall i :: 0 <= i < |s| ==> NumberChar(s[i])
  }

  function KeyOf<T>(m: Member<T>): string { m.key }

  // Objects hold each key once, as objects do.
  ghost predicate WellFormed(v: Json) {
    match v
    case JNumber(text) => NumberText(text)
    case JArray(items) => forall i :: 0 <= i < |items| ==> WellFormed(items[i])
    case JObject(members) =>
      && (forall i, j :: 0 <= i < j < |members| ==> members[i].key != members[j].key)
      && (forall i :: 0 <= i < |members| ==> WellFormed(members[i].value))
    case _ => true
  }

  // Equality after reordering the keys of objects, at every depth.
  ghost predicate SameUpToKeyOrder(v: Json, w: Json)
    decreases v
  {
    match v
    case JArray(items) =>
      w.JArray? && |items| == |w.items|
      && forall i :: 0 <= i < |items| ==> SameUpToKeyOrder(items[i], w.items[i])
    case JObject(members) =>
      w.JObject? && |members| == |w.members|
      && forall i :: 0 <= i < |members| ==> exists j ::
           0 <= j < |w.members| && members[i].key == w.members[j].key
           && SameUpToKeyOrder(members[i].value, w.members[j].value)
    case _ => v == w
  }

  // ------------------------------------------------------------------------------- the printer

  function HexDigit(n: nat): char
    requires n < 16
  {
    if n < 10 then '0' + n as char else 'a' + (n - 10) as char
  }

  predicate NeedsEscape(c: char) {
    c == '\"' || c == '\\' || c < ' '
  }

  // The character after the backslash.
  function EscapeLetter(c: char): char
    requires NeedsEscape(c)
  {
    if c == '\"' || c == '\\' then c
    else if c == '\n' then 'n'
    else if c == '\r' then 'r'
    else if c == '\t' then 't'
    else if c as int == 8 then 'b'
    else if c as int == 12 then 'f'
    else 'u'
  }

  function Escape(c: char): string {
    if !NeedsEscape(c) then [c]
    else if EscapeLetter(c) != 'u' then ['\\', EscapeLetter(c)]
    else ['\\', 'u', '0', '0', HexDigit(c as int / 16), HexDigit(c as int % 16)]
  }

  function EscapeAll(s: string): string {
    if s == "" then "" else Escape(s[0]) + EscapeAll(s[1..])
  }

  function Quote(s: string): string {
    ['\"'] + EscapeAll(s) + ['\"']
  }

  function Join(parts: seq<string>): string {
    if parts == [] then ""
    else if |parts| == 1 then parts[0]
    else parts[0] + "," + Join(parts[1..])
  }

  predicate StringLe(s: string, t: string) {
    s == "" || (t != "" && (s[0] < t[0] || (s[0] == t[0] && StringLe(s[1..], t[1..]))))
  }

  predicate KeyLe<T(==)>(a: Member<T>, b: Member<T>) {
    StringLe(a.key, b.key)
  }

  function MemberText(m: Member<string>): string {
    Quote(m.key) + [':'] + m.value
  }

  function Canonicalize(v: Json): string {
    match v
    case JNull => "null"
    case JBool(b) => if b then "true" else "false"
    case JNumber(text) => text
    case JString(s) => Quote(s)
    case JArray(items) => "[" + Join(CanonicalizeItems(items)) + "]"
    case JObject(members) =>
      "{" + Join(Image(Sort(CanonicalizeMembers(members), KeyLe<string>), MemberText)) + "}"
  }

  function CanonicalizeItems(items: seq<Json>): (r: seq<string>)
    ensures |r| == |items|
  {
    if items == [] then [] else [Canonicalize(items[0])] + CanonicalizeItems(items[1..])
  }

  function CanonicalizeMembers(members: seq<Member<Json>>): (r: seq<Member<string>>)
    ensures |r| == |members|
  {
    if members == [] then []
    else [Member(members[0].key, Canonicalize(members[0].value))] + CanonicalizeMembers(members[1..])
  }

  predicate IsSameProgressRecord(v: Json, w: Json) {
    Canonicalize(v) == Canonicalize(w)
  }

  // -------------------------------------------------------------------------------- normal form

  // The value with the keys of all its objects in order.
  function Normalize(v: Json): Json {
    match v
    case JArray(items) => JArray(NormalizeItems(items))
    case JObject(members) => JObject(Sort(NormalizeMembers(members), KeyLe<Json>))
    case _ => v
  }

  function NormalizeItems(items: seq<Json>): (r: seq<Json>)
    ensures |r| == |items| && forall i :: 0 <= i < |items| ==> r[i] == Normalize(items[i])
  {
    if items == [] then [] else [Normalize(items[0])] + NormalizeItems(items[1..])
  }

  function NormalizeMembers(members: seq<Member<Json>>): (r: seq<Member<Json>>)
    ensures |r| == |members|
    ensures forall i :: 0 <= i < |members| ==> r[i] == Member(members[i].key, Normalize(members[i].value))
  {
    if members == [] then []
    else [Member(members[0].key, Normalize(members[0].value))] + NormalizeMembers(members[1..])
  }

  lemma {:induction false} StringLeTransitive(s: string, t: string, u: string)
    requires StringLe(s, t) && StringLe(t, u)
    ensures StringLe(s, u)
    decreases |s|
  {
    if s != "" && s[0] == t[0] == u[0] {
      StringLeTransitive(s[1..], t[1..], u[1..]);
    }
  }

  lemma {:induction false} StringLeAntisymmetric(s: string, t: string)
    requires StringLe(s, t) && StringLe(t, s)
    ensures s == t
    decreases |s|
  {
    if s != "" {
      StringLeAntisymmetric(s[1..], t[1..]);
      assert s == [s[0]] + s[1..] && t == [t[0]] + t[1..];
    }
  }

  lemma {:induction false} StringLeTotal(s: string, t: string)
    ensures StringLe(s, t) || StringLe(t, s)
    decreases |s|
  {
    if s != "" && t != "" && s[0] == t[0] { StringLeTotal(s[1..], t[1..]); }
  }

  lemma KeyLeIsTotal()
    ensures TotalPreorder(KeyLe<Json>)
  {
    forall a, b ensures KeyLe<Json>(a, b) || KeyLe<Json>(b, a) { StringLeTotal(a.key, b.key); }
    forall a, b, c | KeyLe<Json>(a, b) && KeyLe<Json>(b, c) ensures KeyLe<Json>(a, c) {
      StringLeTransitive(a.key, b.key, c.key);
    }
  }

  ghost predicate DistinctKeys(members: seq<Member<Json>>) {
    forall i, j :: 0 <= i < j < |members| ==> members[i].key != members[j].key
  }

  lemma KeyLeSeparates(members: seq<Member<Json>>)
    requires DistinctKeys(members)
    ensures Separates(KeyLe<Json>, members)
  {
    forall i, j | 0 <= i < |members| && 0 <= j < |members| && KeyLe<Json>(members[i], members[j]) && KeyLe<Json>(members[j], members[i])
      ensures members[i] == members[j]
    {
      StringLeAntisymmetric(members[i].key, members[j].key);
    }
  }

  lemma {:induction false} SameHaveOneNormalForm(v: Json, w: Json)
    requires WellFormed(v) && WellFormed(w) && SameUpToKeyOrder(v, w)
    ensures Normalize(v) == Normalize(w)
    decreases v
  {
    match v
    case JArray(items) =>
      forall i | 0 <= i < |items| ensures Normalize(items[i]) == Normalize(w.items[i]) {
        SameHaveOneNormalForm(items[i], w.items[i]);
      }
      assert NormalizeItems(items) == NormalizeItems(w.items);
    case JObject(members) =>
      var s, t := NormalizeMembers(members), NormalizeMembers(w.members);
      forall m | m in s ensures m in t {
        var i :| 0 <= i < |s| && s[i] == m;
        var j :| 0 <= j < |w.members| && members[i].key == w.members[j].key
          && SameUpToKeyOrder(members[i].value, w.members[j].value);
        SameHaveOneNormalForm(members[i].value, w.members[j].value);
        assert t[j] == m;
      }
      assert Distinct(s);
      DistinctSublistIsPermutation(s, t);
      KeyLeIsTotal();
      KeyLeSeparates(s);
      SortOfPermutation(s, t, KeyLe<Json>);
    case _ =>
  }

  lemma SameArrangementSameMembers(s: seq<Member<Json>>, t: seq<Member<Json>>)
    requires Sort(s, KeyLe<Json>) == Sort(t, KeyLe<Json>)
    ensures |s| == |t| && forall m :: m in s <==> m in t
  {
    KeyLeIsTotal();
    SortIsSortedPermutation(s, KeyLe<Json>);
    SortIsSortedPermutation(t, KeyLe<Json>);
  }

  lemma {:induction false} OneNormalFormMeansSame(v: Json, w: Json)
    requires Normalize(v) == Normalize(w)
    ensures SameUpToKeyOrder(v, w)
    decreases v
  {
    match v
    case JArray(items) =>
      forall i | 0 <= i < |items| ensures SameUpToKeyOrder(items[i], w.items[i]) {
        assert NormalizeItems(items)[i] == NormalizeItems(w.items)[i];
        OneNormalFormMeansSame(items[i], w.items[i]);
      }
    case JObject(members) =>
      var s, t := NormalizeMembers(members), NormalizeMembers(w.members);
      SameArrangementSameMembers(s, t);
      forall i | 0 <= i < |members|
        ensures exists j :: 0 <= j < |w.members| && members[i].key == w.members[j].key
                            && SameUpToKeyOrder(members[i].value, w.members[j].value)
      {
        assert s[i] in t;
        var j :| 0 <= j < |t| && t[j] == s[i];
        OneNormalFormMeansSame(members[i].value, w.members[j].value);
      }
    case _ =>
  }

  // ------------------------------------------------------- the text is the text of the normal form

  // Printing without sorting.
  function Print(v: Json): string {
    match v
    case JArray(items) => "[" + Join(PrintItems(items)) + "]"
    case JObject(members) => "{" + Join(PrintMembers(members)) + "}"
    case _ => Canonicalize(v)
  }

  function PrintItems(items: seq<Json>): (r: seq<string>)
    ensures |r| == |items|
  {
    if items == [] then [] else [Print(items[0])] + PrintItems(items[1..])
  }

  function PrintMembers(members: seq<Member<Json>>): (r: seq<string>)
    ensures |r| == |members|
  {
    if members == [] then []
    else [MemberText(Printed(members[0]))] + PrintMembers(members[1..])
  }

  function Printed(m: Member<Json>): Member<string> {
    Member(m.key, Print(m.value))
  }

  lemma {:induction false} InsertCommutesWithPrinting(m: Member<Json>, s: seq<Member<Json>>)
    ensures Insert(Printed(m), Image(s, Printed), KeyLe<string>) == Image(Insert(m, s, KeyLe<Json>), Printed)
  {
    if s != [] {
      InsertCommutesWithPrinting(m, s[1..]);
      assert Image(s, Printed) == [Printed(s[0])] + Image(s[1..], Printed);
    }
  }

  lemma {:induction false} SortCommutesWithPrinting(s: seq<Member<Json>>)
    ensures Sort(Image(s, Printed), KeyLe<string>) == Image(Sort(s, KeyLe<Json>), Printed)
  {
    if s != [] {
      SortCommutesWithPrinting(s[1..]);
      InsertCommutesWithPrinting(s[0], Sort(s[1..], KeyLe<Json>));
      assert Image(s, Printed) == [Printed(s[0])] + Image(s[1..], Printed);
    }
  }

  lemma {:induction false} CanonicalTextIsTextOfNormalForm(v: Json)
    ensures Canonicalize(v) == Print(Normalize(v))
  {
    match v
    case JArray(items) => CanonicalItems(items);
    case JObject(members) =>
      CanonicalMembers(members);
      var s := NormalizeMembers(members);
      SortCommutesWithPrinting(s);
      var sorted := Sort(s, KeyLe<Json>);
      PrintMembersIsAnImage(sorted);
    case _ =>
  }

  lemma {:induction false} PrintMembersIsAnImage(members: seq<Member<Json>>)
    ensures PrintMembers(members) == Image(Image(members, Printed), MemberText)
  {
    if members != [] { PrintMembersIsAnImage(members[1..]); }
  }

  lemma {:induction false} CanonicalItems(items: seq<Json>)
    ensures CanonicalizeItems(items) == PrintItems(NormalizeItems(items))
  {
    if items != [] {
      CanonicalTextIsTextOfNormalForm(items[0]);
      CanonicalItems(items[1..]);
    }
  }

  lemma {:induction false} CanonicalMembers(members: seq<Member<Json>>)
    ensures CanonicalizeMembers(members) == Image(NormalizeMembers(members), Printed)
  {
    if members != [] {
      CanonicalTextIsTextOfNormalForm(members[0].value);
      CanonicalMembers(members[1..]);
    }
  }

  // --------------------------------------------------------------------- the text can be read back

  lemma DropEqualLengths(p: string, s: string, q: string, t: string)
    requires |p| == |q| && p + s == q + t
    ensures p == q && s == t
  {
    assert p == (p + s)[..|p|] && q == (q + t)[..|q|];
    assert s == (p + s)[|p|..] && t == (q + t)[|q|..];
  }

  lemma FirstTwoAgree(p: string, s: string, q: string, t: string)
    requires p + s == q + t && p != [] && q != []
    ensures p[0] == q[0]
    ensures |p| > 1 && |q| > 1 ==> p[1] == q[1]
  {
    assert p[0] == (p + s)[0] && q[0] == (q + t)[0];
    assert |p| > 1 && |q| > 1 ==> p[1] == (p + s)[1] && q[1] == (q + t)[1];
  }

  lemma EscapeIsPrefixFree(c: char, s: string, d: char, t: string)
    requires Escape(c) + s == Escape(d) + t
    ensures c == d && s == t
  {
    FirstTwoAgree(Escape(c), s, Escape(d), t);
    assert NeedsEscape(c) <==> NeedsEscape(d);
    DropEqualLengths(Escape(c), s, Escape(d), t);
    if NeedsEscape(c) && EscapeLetter(c) == 'u' {
      assert Escape(c)[4] == Escape(d)[4] && Escape(c)[5] == Escape(d)[5];
    }
  }

  lemma {:induction false} QuotedTextEndsOnce(s: string, x: string, t: string, y: string)
    requires EscapeAll(s) + (['\"'] + x) == EscapeAll(t) + (['\"'] + y)
    ensures s == t && x == y
    decreases |s| + |t|
  {
    var endS, endT := ['\"'] + x, ['\"'] + y;
    QuoteFirstMeansEnd(s, endS);
    QuoteFirstMeansEnd(t, endT);
    if s == "" {
      DropEqualLengths(EscapeAll(s), endS, EscapeAll(t), endT);
      DropEqualLengths(['\"'], x, ['\"'], y);
    } else {
      var restS, restT := EscapeAll(s[1..]) + endS, EscapeAll(t[1..]) + endT;
      EscapeIsPrefixFree(s[0], restS, t[0], restT);
      QuotedTextEndsOnce(s[1..], x, t[1..], y);
      assert s == [s[0]] + s[1..] && t == [t[0]] + t[1..];
    }
  }

  lemma QuoteFirstMeansEnd(s: string, end: string)
    requires end != "" && end[0] == '\"'
    ensures EscapeAll(s) + end != "" && ((EscapeAll(s) + end)[0] == '\"' <==> s == "")
    ensures s != "" ==> EscapeAll(s) + end == Escape(s[0]) + (EscapeAll(s[1..]) + end)
  {
    if s != "" {
      Regroup(Escape(s[0]), EscapeAll(s[1..]), end);
      assert (EscapeAll(s) + end)[0] == Escape(s[0])[0];
    }
  }

  lemma Regroup(a: string, b: string, c: string)
    ensures a + b + c == a + (b + c)
  {
  }

  lemma QuoteIsPrefixFree(s: string, x: string, t: string, y: string)
    requires Quote(s) + x == Quote(t) + y
    ensures s == t && x == y
  {
    var endS, endT := ['\"'] + x, ['\"'] + y;
    QuoteSplits(s, x);
    QuoteSplits(t, y);
    DropEqualLengths(['\"'], EscapeAll(s) + endS, ['\"'], EscapeAll(t) + endT);
    QuotedTextEndsOnce(s, x, t, y);
  }

  lemma QuoteSplits(s: string, x: string)
    ensures Quote(s) + x == ['\"'] + (EscapeAll(s) + (['\"'] + x))
  {
    Regroup(['\"'] + EscapeAll(s), ['\"'], x);
    Regroup(['\"'], EscapeAll(s), ['\"'] + x);
  }

  // What may follow a value inside a larger text.
  predicate Stop(x: string) {
    x == "" || IsStop(x[0])
  }

  predicate IsStop(c: char) {
    c == ',' || c == ']' || c == '}'
  }

  // How many characters of a number the text starts with.
  function Span(s: string): nat {
    if s == "" || !NumberChar(s[0]) then 0 else 1 + Span(s[1..])
  }

  lemma {:induction false} SpanOfNumber(s: string, x: string)
    requires (forall i :: 0 <= i < |s| ==> NumberChar(s[i])) && Stop(x)
    ensures Span(s + x) == |s|
  {
    if s == "" {
      assert s + x == x;
    } else {
      assert (s + x)[1..] == s[1..] + x;
      SpanOfNumber(s[1..], x);
    }
  }

  lemma NumberEndsAtStop(s: string, x: string, t: string, y: string)
    requires NumberText(s) && NumberText(t) && Stop(x) && Stop(y)
    requires s + x == t + y
    ensures s == t && x == y
  {
    SpanOfNumber(s, x);
    SpanOfNumber(t, y);
    DropEqualLengths(s, x, t, y);
  }

  // The first character tells the kind of value.
  function Lead(v: Json): char {
    match v
    case JNull => 'n'
    case JBool(b) => if b then 't' else 'f'
    case JNumber(text) => if text == "" then '?' else text[0]
    case JString(_) => '\"'
    case JArray(_) => '['
    case JObject(_) => '{'
  }

  lemma PrintStartsWithLead(v: Json)
    requires WellFormed(v)
    ensures Print(v) != "" && Print(v)[0] == Lead(v) && !IsStop(Lead(v))
    ensures v.JNumber? ==> NumberChar(Lead(v)) && Lead(v) != 'e'
  {
  }

  lemma LeadTellsTheKind(v: Json, w: Json)
    requires WellFormed(v) && WellFormed(w) && Lead(v) == Lead(w)
    ensures v.JNull? <==> w.JNull?
    ensures v.JBool? <==> w.JBool?
    ensures v.JBool? ==> v == w
    ensures v.JNumber? <==> w.JNumber?
    ensures v.JString? <==> w.JString?
    ensures v.JArray? <==> w.JArray?
    ensures v.JObject? <==> w.JObject?
  {
  }

  // A printed value is never the beginning of another one.
  lemma {:induction false} PrintIsPrefixFree(v: Json, x: string, w: Json, y: string)
    requires WellFormed(v) && WellFormed(w) && Stop(x) && Stop(y)
    requires Print(v) + x == Print(w) + y
    ensures v == w && x == y
    decreases v, 1
  {
    PrintStartsWithLead(v);
    PrintStartsWithLead(w);
    FirstTwoAgree(Print(v), x, Print(w), y);
    LeadTellsTheKind(v, w);
    if v.JNumber? {
      NumberEndsAtStop(v.text, x, w.text, y);
    } else if v.JString? {
      QuoteIsPrefixFree(v.chars, x, w.chars, y);
    } else if v.JArray? {
      OpenedListsAgree('[', PrintItems(v.items), x, PrintItems(w.items), y, ']');
      ItemsArePrefixFree(v.items, x, w.items, y);
    } else if v.JObject? {
      OpenedListsAgree('{', PrintMembers(v.members), x, PrintMembers(w.members), y, '}');
      MembersArePrefixFree(v.members, x, w.members, y);
    } else {
      DropEqualLengths(Print(v), x, Print(w), y);
    }
  }

  // A joined list with its closing bracket and what comes after.
  function Closed(parts: seq<string>, close: char, x: string): string {
    Join(parts) + ([close] + x)
  }

  lemma OpenedListsAgree(open: char, parts: seq<string>, x: string, others: seq<string>, y: string, close: char)
    requires [open] + Join(parts) + [close] + x == [open] + Join(others) + [close] + y
    ensures Closed(parts, close, x) == Closed(others, close, y)
  {
    assert [open] + Join(parts) + [close] + x == [open] + Closed(parts, close, x);
    assert [open] + Join(others) + [close] + y == [open] + Closed(others, close, y);
    DropEqualLengths([open], Closed(parts, close, x), [open], Closed(others, close, y));
  }

  // What follows the first part of a joined list that is closed by a bracket.
  function Tail(parts: seq<string>, close: char, x: string): string {
    if parts == [] then [close] + x else [','] + Closed(parts, close, x)
  }

  lemma JoinSplits(parts: seq<string>, close: char, x: string)
    requires parts != []
    ensures Closed(parts, close, x) == parts[0] + Tail(parts[1..], close, x)
  {
    if |parts| > 1 {
      var rest := Join(parts[1..]);
      Regroup(parts[0], [','], rest);
      Regroup(parts[0], [','] + rest, [close] + x);
      Regroup([','], rest, [close] + x);
    }
  }

  // Both lists go on after their first part, or both end.
  lemma TailsAgree(parts: seq<string>, x: string, others: seq<string>, y: string, close: char)
    requires IsStop(close) && close != ',' && Tail(parts, close, x) == Tail(others, close, y)
    ensures parts == [] <==> others == []
    ensures parts == [] ==> x == y
    ensures parts != [] ==> Closed(parts, close, x) == Closed(others, close, y)
  {
    var restP := if parts == [] then x else Closed(parts, close, x);
    var restO := if others == [] then y else Closed(others, close, y);
    var headP, headO := [if parts == [] then close else ','], [if others == [] then close else ','];
    assert Tail(parts, close, x) == headP + restP && Tail(others, close, y) == headO + restO;
    DropEqualLengths(headP, restP, headO, restO);
    assert headP[0] == headO[0];
  }

  // One list is empty exactly if the other is, when no part starts like the closing bracket.
  lemma ListsStartAlike(parts: seq<string>, x: string, others: seq<string>, y: string, close: char)
    requires Closed(parts, close, x) == Closed(others, close, y)
    requires parts != [] ==> parts[0] != [] && parts[0][0] != close
    requires others != [] ==> others[0] != [] && others[0][0] != close
    ensures parts == [] <==> others == []
    ensures parts == [] ==> x == y
  {
    if parts != [] { JoinSplits(parts, close, x); }
    if others != [] { JoinSplits(others, close, y); }
    var a, b := Closed(parts, close, x), Closed(others, close, y);
    assert a[0] == if parts == [] then close else parts[0][0];
    assert b[0] == if others == [] then close else others[0][0];
    if parts == [] && others == [] {
      assert a == [close] + x && b == [close] + y;
      DropEqualLengths([close], x, [close], y);
    }
  }

  lemma {:induction false} ItemsArePrefixFree(items: seq<Json>, x: string, others: seq<Json>, y: string)
    requires forall i :: 0 <= i < |items| ==> WellFormed(items[i])
    requires forall i :: 0 <= i < |others| ==> WellFormed(others[i])
    requires Closed(PrintItems(items), ']', x) == Closed(PrintItems(others), ']', y)
    ensures items == others && x == y
    decreases items, 0
  {
    if items != [] { PrintStartsWithLead(items[0]); }
    if others != [] { PrintStartsWithLead(others[0]); }
    ListsStartAlike(PrintItems(items), x, PrintItems(others), y, ']');
    if items != [] {
      var p, q := PrintItems(items[1..]), PrintItems(others[1..]);
      JoinSplits(PrintItems(items), ']', x);
      JoinSplits(PrintItems(others), ']', y);
      PrintIsPrefixFree(items[0], Tail(p, ']', x), others[0], Tail(q, ']', y));
      TailsAgree(p, x, q, y, ']');
      if items[1..] != [] { ItemsArePrefixFree(items[1..], x, others[1..], y); }
      assert items == [items[0]] + items[1..] && others == [others[0]] + others[1..];
    }
  }

  lemma {:induction false} MembersArePrefixFree(members: seq<Member<Json>>, x: string, others: seq<Member<Json>>, y: string)
    requires forall i :: 0 <= i < |members| ==> WellFormed(members[i].value)
    requires forall i :: 0 <= i < |others| ==> WellFormed(others[i].value)
    requires Closed(PrintMembers(members), '}', x) == Closed(PrintMembers(others), '}', y)
    ensures members == others && x == y
    decreases members, 0
  {
    var all, allOthers := PrintMembers(members), PrintMembers(others);
    if members != [] { MemberTextSplits(Printed(members[0]), ""); }
    if others != [] { MemberTextSplits(Printed(others[0]), ""); }
    ListsStartAlike(all, x, allOthers, y, '}');
    if members != [] {
      var p, q := PrintMembers(members[1..]), PrintMembers(others[1..]);
      assert all[1..] == p && allOthers[1..] == q;
      JoinSplits(all, '}', x);
      JoinSplits(allOthers, '}', y);
      FirstMemberIsPrefixFree(members[0], Tail(p, '}', x), others[0], Tail(q, '}', y));
      TailsAgree(p, x, q, y, '}');
      if members[1..] != [] { MembersArePrefixFree(members[1..], x, others[1..], y); }
      assert members == [members[0]] + members[1..] && others == [others[0]] + others[1..];
    }
  }

  lemma {:induction false} FirstMemberIsPrefixFree(m: Member<Json>, x: string, n: Member<Json>, y: string)
    requires WellFormed(m.value) && WellFormed(n.value) && Stop(x) && Stop(y)
    requires MemberText(Printed(m)) + x == MemberText(Printed(n)) + y
    ensures m == n && x == y
    decreases m, 1
  {
    var restM, restN := Print(m.value) + x, Print(n.value) + y;
    MemberTextSplits(Printed(m), x);
    MemberTextSplits(Printed(n), y);
    QuoteIsPrefixFree(m.key, [':'] + restM, n.key, [':'] + restN);
    DropEqualLengths([':'], restM, [':'], restN);
    PrintIsPrefixFree(m.value, x, n.value, y);
  }

  lemma MemberTextSplits(m: Member<string>, x: string)
    ensures MemberText(m) + x == Quote(m.key) + ([':'] + (m.value + x))
    ensures MemberText(m) != [] && MemberText(m)[0] == '\"'
  {
    Regroup(Quote(m.key) + [':'], m.value, x);
    Regroup(Quote(m.key), [':'], m.value + x);
  }

  // ------------------------------------------------------------------------------ the main result

  lemma {:induction false} NormalFormIsWellFormed(v: Json)
    requires WellFormed(v)
    ensures WellFormed(Normalize(v))
  {
    match v
    case JArray(items) =>
      forall i | 0 <= i < |items| ensures WellFormed(Normalize(items[i])) { NormalFormIsWellFormed(items[i]); }
    case JObject(members) =>
      var s := NormalizeMembers(members);
      var sorted := Sort(s, KeyLe<Json>);
      KeyLeIsTotal();
      SortIsSortedPermutation(s, KeyLe<Json>);
      forall i | 0 <= i < |sorted| ensures WellFormed(sorted[i].value) {
        assert sorted[i] in s;
        var k :| 0 <= k < |s| && s[k] == sorted[i];
        NormalFormIsWellFormed(members[k].value);
      }
      assert Image(s, KeyOf<Json>) == Image(members, KeyOf<Json>);
      assert Distinct(Image(s, KeyOf<Json>));
      ImageOfPermutation(s, sorted, KeyOf<Json>);
      DistinctOfPermutation(Image(s, KeyOf<Json>), Image(sorted, KeyOf<Json>));
      forall i, j | 0 <= i < j < |sorted| ensures sorted[i].key != sorted[j].key {
        assert Image(sorted, KeyOf<Json>)[i] != Image(sorted, KeyOf<Json>)[j];
      }
    case _ =>
  }

  // Two values have the same canonical text exactly when they are equal up to the order of keys.
  lemma SameTextExactlyUpToKeyOrder(v: Json, w: Json)
    requires WellFormed(v) && WellFormed(w)
    ensures IsSameProgressRecord(v, w) <==> SameUpToKeyOrder(v, w)
  {
    CanonicalTextIsTextOfNormalForm(v);
    CanonicalTextIsTextOfNormalForm(w);
    if IsSameProgressRecord(v, w) {
      NormalFormIsWellFormed(v);
      NormalFormIsWellFormed(w);
      assert Print(Normalize(v)) + "" == Print(Normalize(w)) + "";
      PrintIsPrefixFree(Normalize(v), "", Normalize(w), "");
      OneNormalFormMeansSame(v, w);
    } else if SameUpToKeyOrder(v, w) {
      SameHaveOneNormalForm(v, w);
    }
  }
}
