/** Canonical JSON: one text per value, whatever order its object members were in. */
module Canonical {
  import opened Order
  import opened Clusters

  datatype Json =
    | Null
    | Bool(b: bool)
    | Num(literal: string)
    | Str(s: string)
    | Arr(elems: seq<Json>)
    | Obj(members: seq<Member>)

  datatype Member = Member(key: string, value: Json)

  // ---- Strings ----

  function HexDigit(n: nat): char
    requires n < 16
  {
    "0123456789abcdef"[n]
  }

  function UnicodeEscape(n: nat): (s: string)
    requires n < 0x10000
    ensures |s| == 6
  {
    ['\\', 'u', HexDigit(n / 4096), HexDigit(n / 256 % 16), HexDigit(n / 16 % 16), HexDigit(n % 16)]
  }

  /** The escapes of Go's encoder: the JSON ones, and those that keep the text safe inside HTML. */
  function EscapeChar(c: char): (s: string)
    ensures |s| > 0
  {
    if c == '"' || c == '\\' then ['\\', c]
    else if c == '\U{8}' then ['\\', 'b']
    else if c == '\U{c}' then ['\\', 'f']
    else if c == '\n' then ['\\', 'n']
    else if c == '\r' then ['\\', 'r']
    else if c == '\t' then ['\\', 't']
    else if c < ' ' || c == '<' || c == '>' || c == '&' || c == '\U{2028}' || c == '\U{2029}' then UnicodeEscape(c as int)
    else [c]
  }

  /** The rest of a string literal after its opening quote, followed by `k`. */
  function StringThen(s: string, k: string): string
  {
    if |s| == 0 then ['"'] + k else EscapeChar(s[0]) + StringThen(s[1..], k)
  }

  // ---- Printing a value followed by `k` ----

  function PrintThen(v: Json, k: string): string
    decreases v, 2
  {
    match v
    case Null => "null" + k
    case Bool(b) => (if b then "true" else "false") + k
    case Num(n) => n + k
    case Str(s) => ['"'] + StringThen(s, k)
    case Arr(es) => ['['] + (if |es| == 0 then [']'] + k else PrintThen(es[0], ElemsThen(v, es[1..], k)))
    case Obj(ms) => ['{'] + (if |ms| == 0 then ['}'] + k else MemberThen(v, ms[0], MembersThen(v, ms[1..], k)))
  }

  /** The remaining elements of the array `v`. */
  function ElemsThen(ghost v: Json, es: seq<Json>, k: string): string
    requires forall i :: 0 <= i < |es| ==> es[i] < v
    decreases v, 1, |es|
  {
    if |es| == 0 then [']'] + k else [','] + PrintThen(es[0], ElemsThen(v, es[1..], k))
  }

  function MemberThen(ghost v: Json, m: Member, k: string): string
    requires m.value < v
    decreases v, 1, 0
  {
    ['"'] + StringThen(m.key, [':'] + PrintThen(m.value, k))
  }

  /** The remaining members of the object `v`. */
  function MembersThen(ghost v: Json, ms: seq<Member>, k: string): string
    requires forall i :: 0 <= i < |ms| ==> ms[i].value < v
    decreases v, 1, |ms| + 1
  {
    if |ms| == 0 then ['}'] + k else [','] + MemberThen(v, ms[0], MembersThen(v, ms[1..], k))
  }

  function Print(v: Json): string
  {
    PrintThen(v, "")
  }

  // ---- The text determines the value ----

  predicate IsNumberChar(c: char)
  {
    '0' <= c <= '9' || c == '-' || c == '+' || c == '.' || c == 'e' || c == 'E'
  }

  /** Numbers are their shortest literals, which differ for different numbers. */
  predicate IsLiteral(s: string)
  {
    |s| > 0 && forall i :: 0 <= i < |s| ==> IsNumberChar(s[i])
  }

  predicate LiteralsOk(v: Json)
  {
    match v
    case Num(n) => IsLiteral(n)
    case Arr(es) => forall e :: e in es ==> LiteralsOk(e)
    case Obj(ms) => forall m :: m in ms ==> LiteralsOk(m.value)
    case _ => true
  }

  /** What may follow a value: nothing, or a delimiter. */
  predicate Ends(k: string)
  {
    |k| == 0 || k[0] == ',' || k[0] == ']' || k[0] == '}'
  }

  function Value4(s: string): int
    requires |s| >= 6
  {
    4096 * HexValue(s[2]) + 256 * HexValue(s[3]) + 16 * HexValue(s[4]) + HexValue(s[5])
  }

  function HexValue(c: char): int
  {
    if '0' <= c <= '9' then c as int - '0' as int else c as int - 'a' as int + 10
  }

  lemma HexRoundTrip(n: nat)
    requires n < 0x10000
    ensures Value4(UnicodeEscape(n)) == n
  {
    FourDigits(n);
    var s := UnicodeEscape(n);
    HexDigitValue(n / 4096);
    HexDigitValue(n / 256 % 16);
    HexDigitValue(n / 16 % 16);
    HexDigitValue(n % 16);
    assert HexValue(s[2]) == n / 4096 && HexValue(s[3]) == n / 256 % 16 && HexValue(s[4]) == n / 16 % 16 && HexValue(s[5]) == n % 16;
  }

  lemma FourDigits(n: nat)
    ensures n == 4096 * (n / 4096) + 256 * (n / 256 % 16) + 16 * (n / 16 % 16) + n % 16
  {
    assert n / 256 / 16 == n / 4096 && n / 16 / 16 == n / 256;
  }

  lemma HexDigitValue(n: nat)
    requires n < 16
    ensures HexValue(HexDigit(n)) == n
  {
  }

  /** No character's escape is a prefix of another's continuation. */
  lemma EscapeSplits(a: char, b: char, x: string, y: string)
    requires EscapeChar(a) + x == EscapeChar(b) + y
    ensures a == b && x == y
  {
    var s, t := EscapeChar(a) + x, EscapeChar(b) + y;
    assert s[0] == EscapeChar(a)[0] && t[0] == EscapeChar(b)[0];
    assert |EscapeChar(a)| > 1 ==> s[1] == EscapeChar(a)[1];
    assert |EscapeChar(b)| > 1 ==> t[1] == EscapeChar(b)[1];
    assert |EscapeChar(a)| == |EscapeChar(b)|;
    assert s[..|EscapeChar(a)|] == EscapeChar(a) && t[..|EscapeChar(b)|] == EscapeChar(b);
    assert s[|EscapeChar(a)|..] == x && t[|EscapeChar(b)|..] == y;
    EscapeIsInjective(a, b);
  }

  lemma EscapeIsInjective(a: char, b: char)
    ensures EscapeChar(a) == EscapeChar(b) ==> a == b
  {
    if |EscapeChar(a)| == 6 && EscapeChar(a) == EscapeChar(b) {
      HexRoundTrip(a as int);
      HexRoundTrip(b as int);
    } else if |EscapeChar(a)| == 1 && EscapeChar(a) == EscapeChar(b) {
      assert EscapeChar(a)[0] == a && EscapeChar(b)[0] == b;
    } else if |EscapeChar(a)| == 2 && EscapeChar(a) == EscapeChar(b) {
      assert EscapeChar(a)[1] == EscapeChar(b)[1];
    }
  }

  lemma {:induction false} StringSplits(s: string, t: string, x: string, y: string)
    requires StringThen(s, x) == StringThen(t, y)
    ensures s == t && x == y
    decreases |s|
  {
    assert |s| > 0 ==> StringThen(s, x)[0] == EscapeChar(s[0])[0];
    assert |t| > 0 ==> StringThen(t, y)[0] == EscapeChar(t[0])[0];
    assert (['"'] + x)[1..] == x && (['"'] + y)[1..] == y;
    if |s| > 0 && |t| > 0 {
      EscapeSplits(s[0], t[0], StringThen(s[1..], x), StringThen(t[1..], y));
      StringSplits(s[1..], t[1..], x, y);
      assert s == [s[0]] + s[1..] && t == [t[0]] + t[1..];
    }
  }

  lemma {:induction false} NumberSplits(s: string, t: string, x: string, y: string)
    requires forall i :: 0 <= i < |s| ==> IsNumberChar(s[i])
    requires forall i :: 0 <= i < |t| ==> IsNumberChar(t[i])
    requires Ends(x) && Ends(y) && s + x == t + y
    ensures s == t && x == y
  {
    var w := s + x;
    assert forall i :: 0 <= i < |s| ==> w[i] == s[i];
    assert forall i :: 0 <= i < |t| ==> w[i] == t[i];
    assert |s| < |w| ==> w[|s|] == x[0] && !IsNumberChar(w[|s|]);
    assert |t| < |w| ==> w[|t|] == y[0] && !IsNumberChar(w[|t|]);
    assert |s| == |t|;
    assert w[..|s|] == s && w[..|t|] == t && w[|s|..] == x && w[|t|..] == y;
  }

  lemma FirstOfPrint(v: Json, k: string)
    requires LiteralsOk(v)
    ensures var t := PrintThen(v, k);
      |t| > 0 && match v
        case Null => t[0] == 'n'
        case Bool(b) => t[0] == (if b then 't' else 'f')
        case Num(_) => IsNumberChar(t[0])
        case Str(_) => t[0] == '"'
        case Arr(_) => t[0] == '['
        case Obj(_) => t[0] == '{'
  {
  }

  lemma Peel(c: char, x: string, y: string)
    requires [c] + x == [c] + y
    ensures x == y
  {
    assert ([c] + x)[1..] == x && ([c] + y)[1..] == y;
  }

  lemma PeelWord(w: string, x: string, y: string)
    requires w + x == w + y
    ensures x == y
  {
    assert (w + x)[|w|..] == x && (w + y)[|w|..] == y;
  }

  /**
   A text made of a value and then the end or a delimiter can be split in only
   one way: no canonical text is confused with another.
   */
  lemma {:induction false} PrintSplits(a: Json, b: Json, x: string, y: string)
    requires LiteralsOk(a) && LiteralsOk(b) && Ends(x) && Ends(y)
    requires PrintThen(a, x) == PrintThen(b, y)
    ensures a == b && x == y
    decreases a, 2
  {
    FirstOfPrint(a, x);
    FirstOfPrint(b, y);
    match (a, b) {
      case (Null, Null) => PeelWord("null", x, y);
      case (Bool(p), Bool(q)) => PeelWord(if p then "true" else "false", x, y);
      case (Num(m), Num(n)) => NumberSplits(m, n, x, y);
      case (Str(s), Str(t)) =>
        Peel('"', StringThen(s, x), StringThen(t, y));
        StringSplits(s, t, x, y);
      case (Arr(es), Arr(fs)) => ArraySplits(a, b, x, y);
      case (Obj(ms), Obj(ns)) => ObjectSplits(a, b, x, y);
      case _ =>
    }
  }

  lemma {:induction false} ArraySplits(a: Json, b: Json, x: string, y: string)
    requires a.Arr? && b.Arr? && LiteralsOk(a) && LiteralsOk(b) && Ends(x) && Ends(y)
    requires PrintThen(a, x) == PrintThen(b, y)
    ensures a == b && x == y
    decreases a, 1, |a.elems| + 1
  {
    var es, fs := a.elems, b.elems;
    var p := if |es| == 0 then [']'] + x else PrintThen(es[0], ElemsThen(a, es[1..], x));
    var q := if |fs| == 0 then [']'] + y else PrintThen(fs[0], ElemsThen(b, fs[1..], y));
    assert PrintThen(a, x) == ['['] + p && PrintThen(b, y) == ['['] + q;
    Peel('[', p, q);
    if |es| > 0 { FirstOfPrint(es[0], ElemsThen(a, es[1..], x)); }
    if |fs| > 0 { FirstOfPrint(fs[0], ElemsThen(b, fs[1..], y)); }
    if |es| == 0 && |fs| == 0 {
      Peel(']', x, y);
    } else if |es| > 0 && |fs| > 0 {
      PrintSplits(es[0], fs[0], ElemsThen(a, es[1..], x), ElemsThen(b, fs[1..], y));
      ElemsSplit(a, b, es[1..], fs[1..], x, y);
      assert es == [es[0]] + es[1..] && fs == [fs[0]] + fs[1..];
    }
  }

  lemma {:induction false} ElemsSplit(a: Json, b: Json, es: seq<Json>, fs: seq<Json>, x: string, y: string)
    requires forall i :: 0 <= i < |es| ==> es[i] < a && LiteralsOk(es[i])
    requires forall i :: 0 <= i < |fs| ==> fs[i] < b && LiteralsOk(fs[i])
    requires Ends(x) && Ends(y) && ElemsThen(a, es, x) == ElemsThen(b, fs, y)
    ensures es == fs && x == y
    decreases a, 1, |es|
  {
    assert ElemsThen(a, es, x)[0] == (if |es| == 0 then ']' else ',');
    assert ElemsThen(b, fs, y)[0] == (if |fs| == 0 then ']' else ',');
    if |es| == 0 && |fs| == 0 {
      Peel(']', x, y);
    } else if |es| > 0 && |fs| > 0 {
      Peel(',', PrintThen(es[0], ElemsThen(a, es[1..], x)), PrintThen(fs[0], ElemsThen(b, fs[1..], y)));
      PrintSplits(es[0], fs[0], ElemsThen(a, es[1..], x), ElemsThen(b, fs[1..], y));
      ElemsSplit(a, b, es[1..], fs[1..], x, y);
      assert es == [es[0]] + es[1..] && fs == [fs[0]] + fs[1..];
    }
  }

  lemma {:induction false} MemberSplits(a: Json, b: Json, m: Member, n: Member, x: string, y: string)
    requires m.value < a && n.value < b && LiteralsOk(m.value) && LiteralsOk(n.value) && Ends(x) && Ends(y)
    requires MemberThen(a, m, x) == MemberThen(b, n, y)
    ensures m == n && x == y
    decreases a, 1, 0
  {
    Peel('"', StringThen(m.key, [':'] + PrintThen(m.value, x)), StringThen(n.key, [':'] + PrintThen(n.value, y)));
    StringSplits(m.key, n.key, [':'] + PrintThen(m.value, x), [':'] + PrintThen(n.value, y));
    Peel(':', PrintThen(m.value, x), PrintThen(n.value, y));
    PrintSplits(m.value, n.value, x, y);
  }

  /** An object's text after its opening brace. */
  function AfterBrace(v: Json, k: string): string
    requires v.Obj?
  {
    if |v.members| == 0 then ['}'] + k else MemberThen(v, v.members[0], MembersThen(v, v.members[1..], k))
  }

  lemma {:induction false} ObjectOpens(v: Json, k: string)
    requires v.Obj?
    ensures PrintThen(v, k) == ['{'] + AfterBrace(v, k)
    ensures |AfterBrace(v, k)| > 0 && AfterBrace(v, k)[0] == (if |v.members| == 0 then '}' else '"')
  {
  }

  lemma {:induction false} ObjectSplits(a: Json, b: Json, x: string, y: string)
    requires a.Obj? && b.Obj? && LiteralsOk(a) && LiteralsOk(b) && Ends(x) && Ends(y)
    requires PrintThen(a, x) == PrintThen(b, y)
    ensures a == b && x == y
    decreases a, 1, |a.members| + 2
  {
    var ms, ns := a.members, b.members;
    ObjectOpens(a, x);
    ObjectOpens(b, y);
    Peel('{', AfterBrace(a, x), AfterBrace(b, y));
    if |ms| == 0 && |ns| == 0 {
      Peel('}', x, y);
    } else if |ms| > 0 && |ns| > 0 {
      MemberSplits(a, b, ms[0], ns[0], MembersThen(a, ms[1..], x), MembersThen(b, ns[1..], y));
      MembersSplit(a, b, ms[1..], ns[1..], x, y);
      assert ms == [ms[0]] + ms[1..] && ns == [ns[0]] + ns[1..];
    }
  }

  lemma {:induction false} MembersSplit(a: Json, b: Json, ms: seq<Member>, ns: seq<Member>, x: string, y: string)
    requires forall i :: 0 <= i < |ms| ==> ms[i].value < a && LiteralsOk(ms[i].value)
    requires forall i :: 0 <= i < |ns| ==> ns[i].value < b && LiteralsOk(ns[i].value)
    requires Ends(x) && Ends(y) && MembersThen(a, ms, x) == MembersThen(b, ns, y)
    ensures ms == ns && x == y
    decreases a, 1, |ms| + 1
  {
    assert MembersThen(a, ms, x)[0] == (if |ms| == 0 then '}' else ',');
    assert MembersThen(b, ns, y)[0] == (if |ns| == 0 then '}' else ',');
    if |ms| == 0 && |ns| == 0 {
      Peel('}', x, y);
    } else if |ms| > 0 && |ns| > 0 {
      Peel(',', MemberThen(a, ms[0], MembersThen(a, ms[1..], x)), MemberThen(b, ns[0], MembersThen(b, ns[1..], y)));
      MemberSplits(a, b, ms[0], ns[0], MembersThen(a, ms[1..], x), MembersThen(b, ns[1..], y));
      MembersSplit(a, b, ms[1..], ns[1..], x, y);
      assert ms == [ms[0]] + ms[1..] && ns == [ns[0]] + ns[1..];
    }
  }

  // ---- Values up to the order of object members ----

  /** No object names a member twice: what decoding into a map leaves. */
  ghost predicate DistinctMembers(v: Json)
  {
    match v
    case Arr(es) => forall i :: 0 <= i < |es| ==> DistinctMembers(es[i])
    case Obj(ms) =>
      && (forall i :: 0 <= i < |ms| ==> DistinctMembers(ms[i].value))
      && (forall i, j :: 0 <= i < j < |ms| ==> ms[i].key != ms[j].key)
    case _ => true
  }

  /** Equal values, whatever the order of their objects' members. */
  ghost predicate Same(a: Json, b: Json)
    decreases a, 0
  {
    match (a, b)
    case (Arr(es), Arr(fs)) => |es| == |fs| && forall i :: 0 <= i < |es| ==> Same(es[i], fs[i])
    case (Obj(ms), Obj(ns)) =>
      && (forall i :: 0 <= i < |ms| ==> HasSame(ms[i], ns))
      && (forall j :: 0 <= j < |ns| ==> KeyIn(ns[j].key, ms))
    case _ => a == b
  }

  /** Some member of `ns` has `m`'s key and the same value. */
  ghost predicate HasSame(m: Member, ns: seq<Member>)
    decreases m.value, 1
  {
    exists j :: 0 <= j < |ns| && m.key == ns[j].key && Same(m.value, ns[j].value)
  }

  ghost predicate KeyIn(key: string, ms: seq<Member>)
  {
    exists i :: 0 <= i < |ms| && ms[i].key == key
  }

  predicate KeyLess(m: Member, n: Member)
  {
    Less(m.key, n.key)
  }

  function InsertMember(m: Member, ms: seq<Member>): (r: seq<Member>)
    ensures |r| == |ms| + 1
    ensures forall x :: x in r <==> x == m || x in ms
  {
    if |ms| == 0 || Less(m.key, ms[0].key) then
      var r := [m] + ms;
      r
    else
      var rest := InsertMember(m, ms[1..]);
      assert ms == [ms[0]] + ms[1..];
      [ms[0]] + rest
  }

  function SortMembers(ms: seq<Member>): (r: seq<Member>)
    ensures |r| == |ms|
    ensures forall x :: x in r <==> x in ms
  {
    if |ms| == 0 then []
    else
      assert ms == [ms[0]] + ms[1..];
      InsertMember(ms[0], SortMembers(ms[1..]))
  }

  /** The value with every object's members in key order. */
  function Canon(v: Json): Json
    decreases v, 1
  {
    match v
    case Arr(es) => Arr(CanonElems(v, es))
    case Obj(ms) => Obj(SortMembers(CanonMembers(v, ms)))
    case _ => v
  }

  function CanonElems(ghost v: Json, es: seq<Json>): (r: seq<Json>)
    requires forall i :: 0 <= i < |es| ==> es[i] < v
    ensures |r| == |es|
    ensures forall i :: 0 <= i < |es| ==> r[i] == Canon(es[i])
    decreases v, 0, |es|
  {
    if |es| == 0 then [] else [Canon(es[0])] + CanonElems(v, es[1..])
  }

  function CanonMembers(ghost v: Json, ms: seq<Member>): (r: seq<Member>)
    requires forall i :: 0 <= i < |ms| ==> ms[i].value < v
    ensures |r| == |ms|
    ensures forall i :: 0 <= i < |ms| ==> r[i] == Member(ms[i].key, Canon(ms[i].value))
    decreases v, 0, |ms|
  {
    if |ms| == 0 then [] else [Member(ms[0].key, Canon(ms[0].value))] + CanonMembers(v, ms[1..])
  }

  lemma {:induction false} InsertSorts(m: Member, ms: seq<Member>)
    requires StrictlySortedBy(KeyLess, ms) && forall x :: x in ms ==> x.key != m.key
    ensures StrictlySortedBy(KeyLess, InsertMember(m, ms))
    decreases |ms|
  {
    if |ms| > 0 {
      LessIsTotal(m.key, ms[0].key);
      assert ms == [ms[0]] + ms[1..];
      if Less(m.key, ms[0].key) {
        forall x | x in ms ensures Less(m.key, x.key) {
          HeadIsLeast(ms, x);
          if x != ms[0] { LessIsTransitive(m.key, ms[0].key, x.key); }
        }
        ConsSorts(m, ms);
      } else {
        InsertSorts(m, ms[1..]);
        forall x | x in InsertMember(m, ms[1..]) ensures Less(ms[0].key, x.key) {
          if x != m {
            var i :| 0 <= i < |ms[1..]| && ms[1..][i] == x;
            assert KeyLess(ms[0], ms[i + 1]);
          }
        }
        ConsSorts(ms[0], InsertMember(m, ms[1..]));
      }
    }
  }

  lemma HeadIsLeast(ms: seq<Member>, x: Member)
    requires StrictlySortedBy(KeyLess, ms) && x in ms
    ensures x == ms[0] || Less(ms[0].key, x.key)
  {
    var i :| 0 <= i < |ms| && ms[i] == x;
  }

  lemma ConsSorts(m: Member, rest: seq<Member>)
    requires StrictlySortedBy(KeyLess, rest) && forall x :: x in rest ==> Less(m.key, x.key)
    ensures StrictlySortedBy(KeyLess, [m] + rest)
  {
  }

  ghost predicate DistinctKeys(ms: seq<Member>)
  {
    forall i, j :: 0 <= i < j < |ms| ==> ms[i].key != ms[j].key
  }

  lemma SortSorts(ms: seq<Member>)
    requires DistinctKeys(ms)
    ensures StrictlySortedBy(KeyLess, SortMembers(ms))
  {
    if |ms| > 0 {
      SortSorts(ms[1..]);
      forall x | x in SortMembers(ms[1..]) ensures x.key != ms[0].key {
        var i :| 0 <= i < |ms[1..]| && ms[1..][i] == x;
        assert ms[i + 1] == x;
      }
      InsertSorts(ms[0], SortMembers(ms[1..]));
    }
  }

  lemma KeyLessIsAsymmetric()
    ensures Asymmetric(KeyLess)
  {
    LessIsStrictTotal();
  }

  lemma SameListing(ms: seq<Member>, ns: seq<Member>)
    requires DistinctKeys(ms) && DistinctKeys(ns)
    ensures SortMembers(ms) == SortMembers(ns) <==> SameElements(ms, ns)
  {
    SortSorts(ms);
    SortSorts(ns);
    if SameElements(ms, ns) {
      KeyLessIsAsymmetric();
      StrictOrderIsUnique(KeyLess, SortMembers(ms), SortMembers(ns));
    }
    if SortMembers(ms) == SortMembers(ns) {
      forall x ensures x in ms <==> x in ns {
        assert x in ms <==> x in SortMembers(ms);
      }
    }
  }

  /** `m` has a member of `ns` with its key and, up to member order, its value. */
  ghost predicate Matched(m: Member, ns: seq<Member>)
  {
    exists j :: 0 <= j < |ns| && m.key == ns[j].key && Canon(m.value) == Canon(ns[j].value)
  }

  lemma SubListingMatches(a: Json, b: Json, i: nat)
    requires a.Obj? && b.Obj? && i < |a.members|
    requires forall x :: x in CanonMembers(a, a.members) ==> x in CanonMembers(b, b.members)
    ensures Matched(a.members[i], b.members)
  {
    var cm, cn := CanonMembers(a, a.members), CanonMembers(b, b.members);
    assert cm[i] in cn;
    var j :| 0 <= j < |cn| && cn[j] == cm[i];
    assert cn[j] == Member(b.members[j].key, Canon(b.members[j].value));
  }

  lemma MatchesGiveListing(a: Json, b: Json)
    requires a.Obj? && b.Obj? && DistinctKeys(b.members)
    requires AllMatched(a.members, b.members)
    ensures SameElements(CanonMembers(a, a.members), CanonMembers(b, b.members))
  {
    var ms, ns, cm, cn := a.members, b.members, CanonMembers(a, a.members), CanonMembers(b, b.members);
    forall i | 0 <= i < |ms| ensures cm[i] in cn {
      assert Matched(ms[i], ns);
      var j :| 0 <= j < |ns| && ms[i].key == ns[j].key && Canon(ms[i].value) == Canon(ns[j].value);
      assert cn[j] == cm[i];
    }
    forall j | 0 <= j < |ns| ensures cn[j] in cm {
      assert KeyIn(ns[j].key, ms);
      var i :| 0 <= i < |ms| && ms[i].key == ns[j].key;
      assert Matched(ms[i], ns);
      var l :| 0 <= l < |ns| && ms[i].key == ns[l].key && Canon(ms[i].value) == Canon(ns[l].value);
      assert l == j && cm[i] == cn[j];
    }
  }

  /** Canonical forms are equal exactly for equal values up to member order. */
  lemma {:induction false} CanonIffSame(a: Json, b: Json)
    requires DistinctMembers(a) && DistinctMembers(b)
    ensures Canon(a) == Canon(b) <==> Same(a, b)
    decreases a, 1
  {
    match (a, b) {
      case (Arr(es), Arr(fs)) => CanonIffSameArrays(a, b);
      case (Obj(ms), Obj(ns)) => CanonIffSameObjects(a, b);
      case _ =>
    }
  }

  lemma {:induction false} CanonIffSameArrays(a: Json, b: Json)
    requires a.Arr? && b.Arr? && DistinctMembers(a) && DistinctMembers(b)
    ensures Canon(a) == Canon(b) <==> Same(a, b)
    decreases a, 0
  {
    var es, fs := a.elems, b.elems;
    forall i | 0 <= i < |es| && i < |fs| ensures Canon(es[i]) == Canon(fs[i]) <==> Same(es[i], fs[i]) {
      CanonIffSame(es[i], fs[i]);
    }
    var ce, cf := CanonElems(a, es), CanonElems(b, fs);
    assert Canon(a) == Canon(b) <==> ce == cf;
    assert ce == cf <==> |es| == |fs| && forall i :: 0 <= i < |es| ==> ce[i] == cf[i];
  }

  lemma {:induction false} CanonIffSameObjects(a: Json, b: Json)
    requires a.Obj? && b.Obj? && DistinctMembers(a) && DistinctMembers(b)
    ensures Canon(a) == Canon(b) <==> Same(a, b)
    decreases a, 0
  {
    var ms, ns := a.members, b.members;
    forall i | 0 <= i < |ms| ensures Matched(ms[i], ns) <==> HasSame(ms[i], ns) {
      MatchedIffSame(ms[i], ns, b);
    }
    SameListing(CanonMembers(a, ms), CanonMembers(b, ns));
    ListingIffMatches(a, b);
  }

  lemma {:induction false} MatchedIffSame(m: Member, ns: seq<Member>, b: Json)
    requires DistinctMembers(m.value) && b == Obj(ns) && DistinctMembers(b)
    ensures Matched(m, ns) <==> HasSame(m, ns)
    decreases m.value, 2
  {
    forall j | 0 <= j < |ns| ensures Canon(m.value) == Canon(ns[j].value) <==> Same(m.value, ns[j].value) {
      CanonIffSame(m.value, ns[j].value);
    }
  }

  ghost predicate AllMatched(ms: seq<Member>, ns: seq<Member>)
  {
    && (forall i :: 0 <= i < |ms| ==> Matched(ms[i], ns))
    && (forall j :: 0 <= j < |ns| ==> KeyIn(ns[j].key, ms))
  }

  ghost predicate SameElements<T(!new)>(xs: seq<T>, ys: seq<T>)
  {
    forall x :: x in xs <==> x in ys
  }

  lemma ListingIffMatches(a: Json, b: Json)
    requires a.Obj? && b.Obj? && DistinctKeys(b.members)
    ensures SameElements(CanonMembers(a, a.members), CanonMembers(b, b.members)) <==> AllMatched(a.members, b.members)
  {
    if AllMatched(a.members, b.members) {
      MatchesGiveListing(a, b);
    } else if SameElements(CanonMembers(a, a.members), CanonMembers(b, b.members)) {
      ListingGivesMatches(a, b);
    }
  }

  lemma ListingGivesMatches(a: Json, b: Json)
    requires a.Obj? && b.Obj? && SameElements(CanonMembers(a, a.members), CanonMembers(b, b.members))
    ensures AllMatched(a.members, b.members)
  {
    forall i | 0 <= i < |a.members| ensures Matched(a.members[i], b.members) {
      SubListingMatches(a, b, i);
    }
    forall j | 0 <= j < |b.members| ensures KeyIn(b.members[j].key, a.members) {
      SubListingMatches(b, a, j);
    }
  }

  lemma CanonKeepsLiterals(v: Json)
    requires LiteralsOk(v)
    ensures LiteralsOk(Canon(v))
    decreases v
  {
    match v {
      case Arr(es) =>
        forall i | 0 <= i < |es| ensures LiteralsOk(CanonElems(v, es)[i]) {
          CanonKeepsLiterals(es[i]);
        }
      case Obj(ms) =>
        forall i | 0 <= i < |ms| ensures LiteralsOk(CanonMembers(v, ms)[i].value) {
          CanonKeepsLiterals(ms[i].value);
        }
        forall m | m in SortMembers(CanonMembers(v, ms)) ensures LiteralsOk(m.value) {
          var i :| 0 <= i < |ms| && CanonMembers(v, ms)[i] == m;
        }
      case _ =>
    }
  }

  /** What `json.Marshal` and `json.Unmarshal` leave for `marshalCanonical`. */
  ghost predicate Decoded(v: Json)
  {
    DistinctMembers(v) && LiteralsOk(v)
  }

  function CanonicalText(v: Json): string
  {
    Print(Canon(v))
  }

  /** Two values have the same canonical text exactly when they are equal up to the order of object members. */
  lemma SameTextIffSameValue(a: Json, b: Json)
    requires Decoded(a) && Decoded(b)
    ensures CanonicalText(a) == CanonicalText(b) <==> Same(a, b)
  {
    CanonKeepsLiterals(a);
    CanonKeepsLiterals(b);
    CanonIffSame(a, b);
    if CanonicalText(a) == CanonicalText(b) {
      PrintSplits(Canon(a), Canon(b), "", "");
    }
  }

  // ---- The cache key ----

  /** What is hashed for a request; the hash is taken to be injective. */
  function KeyText(path: string, body: Json): string
  {
    path + CanonicalText(body)
  }

  lemma BodyText(v: Json)
    requires v.Obj?
    ensures |CanonicalText(v)| > 0 && CanonicalText(v)[0] == '{'
  {
  }

  lemma SplitAtBrace(p: string, q: string, x: string, y: string)
    requires '{' !in p && '{' !in q && |x| > 0 && |y| > 0 && x[0] == '{' && y[0] == '{'
    requires p + x == q + y
    ensures p == q && x == y
  {
    var w := p + x;
    assert w[|p|] == '{' && w[|q|] == '{';
    assert forall i :: 0 <= i < |p| ==> w[i] == p[i] && p[i] != '{';
    assert forall i :: 0 <= i < |q| ==> w[i] == q[i] && q[i] != '{';
    assert w[..|p|] == p && w[..|q|] == q && w[|p|..] == x && w[|q|..] == y;
  }

  /** For brace-free paths and object bodies, requests share a key exactly when path and body agree. */
  lemma SameKeyIffSameRequest(p: string, q: string, a: Json, b: Json)
    requires '{' !in p && '{' !in q && a.Obj? && b.Obj? && Decoded(a) && Decoded(b)
    ensures KeyText(p, a) == KeyText(q, b) <==> p == q && Same(a, b)
  {
    SameTextIffSameValue(a, b);
    BodyText(a);
    BodyText(b);
    if KeyText(p, a) == KeyText(q, b) {
      SplitAtBrace(p, q, CanonicalText(a), CanonicalText(b));
    }
  }

  // ---- The computation ----

  lemma {:induction false} StringAppends(s: string, k: string)
    ensures StringThen(s, k) == StringThen(s, "") + k
    decreases |s|
  {
    if |s| > 0 {
      StringAppends(s[1..], k);
    }
  }

  lemma {:induction false} PrintAppends(v: Json, k: string)
    ensures PrintThen(v, k) == Print(v) + k
    decreases v, 2
  {
    match v {
      case Str(s) => StringAppends(s, k);
      case Arr(es) =>
        if |es| > 0 {
          ElemsAppend(v, es[1..], k);
          PrintAppends(es[0], ElemsThen(v, es[1..], k));
          PrintAppends(es[0], ElemsThen(v, es[1..], ""));
          Regroup(['['], Print(es[0]), ElemsThen(v, es[1..], ""), k);
        }
      case Obj(ms) =>
        if |ms| > 0 {
          MembersAppend(v, ms[1..], k);
          MemberAppends(v, ms[0], MembersThen(v, ms[1..], k));
          MemberAppends(v, ms[0], MembersThen(v, ms[1..], ""));
          Regroup(['{'], MemberText(ms[0]), MembersThen(v, ms[1..], ""), k);
        }
      case _ =>
    }
  }

  lemma {:induction false} ElemsAppend(v: Json, es: seq<Json>, k: string)
    requires forall i :: 0 <= i < |es| ==> es[i] < v
    ensures ElemsThen(v, es, k) == ElemsThen(v, es, "") + k
    decreases v, 1, |es|
  {
    if |es| > 0 {
      ElemsAppend(v, es[1..], k);
      PrintAppends(es[0], ElemsThen(v, es[1..], k));
      PrintAppends(es[0], ElemsThen(v, es[1..], ""));
      Regroup([','], Print(es[0]), ElemsThen(v, es[1..], ""), k);
    }
  }

  /** A member's text: quoted key, colon, value. */
  function MemberText(m: Member): string
  {
    ['"'] + StringThen(m.key, [':'] + Print(m.value))
  }

  lemma {:induction false} MemberAppends(v: Json, m: Member, k: string)
    requires m.value < v
    ensures MemberThen(v, m, k) == MemberText(m) + k
    decreases v, 1, 0
  {
    PrintAppends(m.value, k);
    StringAppends(m.key, [':'] + PrintThen(m.value, k));
    StringAppends(m.key, [':'] + Print(m.value));
  }

  lemma {:induction false} MembersAppend(v: Json, ms: seq<Member>, k: string)
    requires forall i :: 0 <= i < |ms| ==> ms[i].value < v
    ensures MembersThen(v, ms, k) == MembersThen(v, ms, "") + k
    decreases v, 1, |ms| + 1
  {
    if |ms| > 0 {
      MembersAppend(v, ms[1..], k);
      MemberAppends(v, ms[0], MembersThen(v, ms[1..], k));
      MemberAppends(v, ms[0], MembersThen(v, ms[1..], ""));
      Regroup([','], MemberText(ms[0]), MembersThen(v, ms[1..], ""), k);
    }
  }

  lemma Regroup(c: string, text: string, rest: string, k: string)
    ensures c + (text + (rest + k)) == (c + (text + rest)) + k
  {
  }

  /** What is still to print of the object `o` once its first `i` members are out. */
  ghost function ObjectRest(o: Json, i: nat): string
    requires o.Obj? && i <= |o.members|
  {
    if i == 0 && |o.members| > 0 then MemberThen(o, o.members[0], MembersThen(o, o.members[1..], ""))
    else MembersThen(o, o.members[i..], "")
  }

  ghost function ArrayRest(a: Json, i: nat): string
    requires a.Arr? && i <= |a.elems|
  {
    if i == 0 && |a.elems| > 0 then PrintThen(a.elems[0], ElemsThen(a, a.elems[1..], ""))
    else ElemsThen(a, a.elems[i..], "")
  }

  lemma ObjectStep(o: Json, i: nat)
    requires o.Obj? && i < |o.members|
    ensures ObjectRest(o, i) == (if i > 0 then "," else "") + (MemberText(o.members[i]) + ObjectRest(o, i + 1))
  {
    var ms := o.members;
    assert ms[i..][0] == ms[i] && ms[i..][1..] == ms[i + 1..];
    MemberAppends(o, ms[i], MembersThen(o, ms[i + 1..], ""));
  }

  lemma ArrayStep(a: Json, i: nat)
    requires a.Arr? && i < |a.elems|
    ensures ArrayRest(a, i) == (if i > 0 then "," else "") + (Print(a.elems[i]) + ArrayRest(a, i + 1))
  {
    var es := a.elems;
    assert es[i..][0] == es[i] && es[i..][1..] == es[i + 1..];
    PrintAppends(es[i], ElemsThen(a, es[i + 1..], ""));
  }

  function Quote(s: string): string
  {
    ['"'] + StringThen(s, "")
  }

  lemma QuotedMember(m: Member)
    ensures MemberText(m) == Quote(m.key) + ([':'] + Print(m.value))
  {
    StringAppends(m.key, [':'] + Print(m.value));
  }

  function KeyOf(m: Member): string
  {
    m.key
  }

  function Lookup(ms: seq<Member>, key: string): (v: Json)
    requires key in Map(ms, KeyOf)
    ensures Member(key, v) in ms
  {
    if ms[0].key == key then ms[0].value
    else
      assert Map(ms, KeyOf)[1..] == Map(ms[1..], KeyOf);
      assert ms == [ms[0]] + ms[1..];
      Lookup(ms[1..], key)
  }

  lemma KeysOfSorted(ms: seq<Member>, cm: seq<Member>, keys: seq<string>)
    requires |cm| == |ms| && forall i :: 0 <= i < |ms| ==> cm[i].key == ms[i].key
    requires DistinctKeys(cm)
    requires multiset(keys) == multiset(Map(ms, KeyOf)) && StrictlySortedBy(Less, keys)
    ensures keys == Map(SortMembers(cm), KeyOf)
  {
    var sorted := SortMembers(cm);
    SortSorts(cm);
    assert Map(cm, KeyOf) == Map(ms, KeyOf);
    SameElementsMapped(cm, sorted, KeyOf);
    forall k ensures k in keys <==> k in Map(sorted, KeyOf) {
      assert k in keys <==> k in multiset(keys);
      assert k in Map(ms, KeyOf) <==> k in multiset(Map(ms, KeyOf));
    }
    SortedKeysAreUnique(keys, sorted);
  }

  lemma SortedKeysAreUnique(keys: seq<string>, sorted: seq<Member>)
    requires StrictlySortedBy(Less, keys) && StrictlySortedBy(KeyLess, sorted)
    requires forall k :: k in keys <==> k in Map(sorted, KeyOf)
    ensures keys == Map(sorted, KeyOf)
  {
    LessIsStrictTotal();
    var listed := Map(sorted, KeyOf);
    forall i, j | 0 <= i < j < |listed| ensures Less(listed[i], listed[j]) {
      assert KeyLess(sorted[i], sorted[j]);
    }
    StrictOrderIsUnique(Less, keys, listed);
  }

  lemma SameElementsMapped<A(!new), B(!new)>(xs: seq<A>, ys: seq<A>, f: A -> B)
    requires forall x :: x in xs <==> x in ys
    ensures forall b :: b in Map(xs, f) <==> b in Map(ys, f)
  {
    forall b ensures b in Map(xs, f) <==> b in Map(ys, f) {
      if b in Map(xs, f) {
        var i :| 0 <= i < |xs| && f(xs[i]) == b;
        assert xs[i] in ys;
        var j :| 0 <= j < |ys| && ys[j] == xs[i];
        assert Map(ys, f)[j] == b;
      }
      if b in Map(ys, f) {
        var i :| 0 <= i < |ys| && f(ys[i]) == b;
        assert ys[i] in xs;
        var j :| 0 <= j < |xs| && xs[j] == ys[i];
        assert Map(xs, f)[j] == b;
      }
    }
  }

  lemma MemberByKey(ms: seq<Member>, cm: seq<Member>, x: Member)
    requires |cm| == |ms| && forall i :: 0 <= i < |ms| ==> cm[i] == Member(ms[i].key, Canon(ms[i].value))
    requires DistinctKeys(ms) && x in cm
    ensures x.key in Map(ms, KeyOf) && x == Member(x.key, Canon(Lookup(ms, x.key)))
  {
    var j :| 0 <= j < |cm| && cm[j] == x;
    assert Map(ms, KeyOf)[j] == x.key;
    var l :| 0 <= l < |ms| && ms[l] == Member(x.key, Lookup(ms, x.key));
    assert j == l;
  }

  /** Sorting the keys, in whatever order they came out of the map, lists the members canonically. */
  lemma SortedKeysListMembers(v: Json, keys: seq<string>)
    requires v.Obj? && DistinctMembers(v)
    requires multiset(keys) == multiset(Map(v.members, KeyOf)) && StrictlySortedBy(Less, keys)
    ensures |keys| == |Canon(v).members|
    ensures forall i :: 0 <= i < |keys| ==>
      keys[i] in Map(v.members, KeyOf) && Canon(v).members[i] == Member(keys[i], Canon(Lookup(v.members, keys[i])))
  {
    var ms, cm := v.members, CanonMembers(v, v.members);
    var sorted := SortMembers(cm);
    KeysOfSorted(ms, cm, keys);
    forall i | 0 <= i < |keys|
      ensures keys[i] in Map(ms, KeyOf) && sorted[i] == Member(keys[i], Canon(Lookup(ms, keys[i])))
    {
      assert sorted[i] in cm && sorted[i].key == keys[i];
      MemberByKey(ms, cm, sorted[i]);
    }
  }

  method SortKeys(v: Json) returns (keys: seq<string>)
    requires v.Obj? && DistinctMembers(v)
    ensures multiset(keys) == multiset(Map(v.members, KeyOf)) && StrictlySortedBy(Less, keys)
  {
    var identity := (k: string) => k;
    var unsorted := Map(v.members, KeyOf);
    RankedIsStrictWeak(NoRank<string>(), NoRank<string>(), identity);
    keys := SortSlice(unsorted, Ranked(NoRank<string>(), NoRank<string>(), identity));
    PermutationFacts(unsorted, keys);
    LessIsStrictTotal();
    forall i, j | 0 <= i < j < |keys| ensures Less(keys[i], keys[j]) {
      assert identity(keys[i]) != identity(keys[j]);
    }
  }

  lemma ObjectPiece(o: Json, i: nat, key: string, vb: string, out: string)
    requires o.Obj? && i < |o.members| && o.members[i].key == key && Print(o.members[i].value) == vb
    requires out + ObjectRest(o, i) == Print(o)
    ensures out + (if i > 0 then "," else "") + (Quote(key) + ([':'] + vb)) + ObjectRest(o, i + 1) == Print(o)
  {
    QuotedMember(o.members[i]);
    ObjectStep(o, i);
    PieceMoves(out, if i > 0 then "," else "", MemberText(o.members[i]), ObjectRest(o, i + 1));
  }

  lemma PieceMoves(out: string, comma: string, piece: string, rest: string)
    ensures out + (comma + (piece + rest)) == out + comma + piece + rest
  {
  }

  lemma ArrayPiece(a: Json, i: nat, text: string, out: string)
    requires a.Arr? && i < |a.elems| && Print(a.elems[i]) == text
    requires out + ArrayRest(a, i) == Print(a)
    ensures out + (if i > 0 then "," else "") + text + ArrayRest(a, i + 1) == Print(a)
  {
    ArrayStep(a, i);
    PieceMoves(out, if i > 0 then "," else "", text, ArrayRest(a, i + 1));
  }

  /** The text is built by appending, and is the canonical text. */
  method MarshalCanonical(v: Json) returns (out: string)
    requires DistinctMembers(v)
    ensures out == CanonicalText(v)
    decreases v, 1
  {
    match v {
      case Obj(ms) => out := MarshalObject(v);
      case Arr(es) => out := MarshalArray(v);
      case _ => out := Print(v);
    }
  }

  method MarshalObject(v: Json) returns (out: string)
    requires v.Obj? && DistinctMembers(v)
    ensures out == CanonicalText(v)
    decreases v, 0
  {
    var keys := SortKeys(v);
    SortedKeysListMembers(v, keys);
    ghost var o := Canon(v);
    out := "{";
    for i := 0 to |keys|
      invariant out + ObjectRest(o, i) == Print(o)
    {
      var vb := MarshalCanonical(Lookup(v.members, keys[i]));
      ObjectPiece(o, i, keys[i], vb, out);
      out := out + (if i > 0 then "," else "") + (Quote(keys[i]) + ([':'] + vb));
    }
    out := out + "}";
  }

  method MarshalArray(v: Json) returns (out: string)
    requires v.Arr? && DistinctMembers(v)
    ensures out == CanonicalText(v)
    decreases v, 0
  {
    ghost var a := Canon(v);
    out := "[";
    for i := 0 to |v.elems|
      invariant out + ArrayRest(a, i) == Print(a)
    {
      var text := MarshalCanonical(v.elems[i]);
      ArrayPiece(a, i, text, out);
      out := out + (if i > 0 then "," else "") + text;
    }
    out := out + "]";
  }

  // ---- The cache ----

  class Cache {
    /** Responses by hashed key text; the hash is taken to be injective. */
    var entries: map<string, string>

    constructor ()
      ensures entries == map[]
    {
      entries := map[];
    }

    method Get(path: string, body: Json) returns (raw: Option<string>)
      requires DistinctMembers(body)
      ensures raw == if KeyText(path, body) in entries then Some(entries[KeyText(path, body)]) else None
    {
      var canon := MarshalCanonical(body);
      var key := path + canon;
      raw := if key in entries then Some(entries[key]) else None;
    }

    method Put(path: string, body: Json, raw: string)
      requires DistinctMembers(body)
      modifies this
      ensures entries == old(entries)[KeyText(path, body) := raw]
    {
      var canon := MarshalCanonical(body);
      entries := entries[path + canon := raw];
    }
  }

  /** A stored response answers exactly the requests equal to the one it was stored for. */
  lemma PutAnswersOnlyItsRequest(entries: map<string, string>, p: string, a: Json, raw: string, q: string, b: Json)
    requires '{' !in p && '{' !in q && a.Obj? && b.Obj? && Decoded(a) && Decoded(b)
    ensures var after := entries[KeyText(p, a) := raw];
      if p == q && Same(a, b) then KeyText(q, b) in after && after[KeyText(q, b)] == raw
      else (KeyText(q, b) in after <==> KeyText(q, b) in entries) &&
           (KeyText(q, b) in entries ==> after[KeyText(q, b)] == entries[KeyText(q, b)])
  {
    SameKeyIffSameRequest(p, q, a, b);
  }
}
