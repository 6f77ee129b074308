/** A reader of JSON text, and what it gets back from the canonical text. */
module Reader {
  import opened Order
  import opened Clusters
  import opened Canonical

  // ---- The reader, section 7 of RFC 8259 for strings and sections 3 to 6 for values ----

  function HexDigitOf(c: char): Option<nat>
  {
    if '0' <= c <= '9' then Some(c as nat - '0' as nat)
    else if 'a' <= c <= 'f' then Some(c as nat - 'a' as nat + 10)
    else if 'A' <= c <= 'F' then Some(c as nat - 'A' as nat + 10)
    else None
  }

  /** Four hexadecimal digits; half of a surrogate pair names no character of its own. */
  function ReadHex(s: string): Option<char>
    requires |s| >= 4
  {
    var a, b, c, d := HexDigitOf(s[0]), HexDigitOf(s[1]), HexDigitOf(s[2]), HexDigitOf(s[3]);
    if a.None? || b.None? || c.None? || d.None? then None
    else
      var n := 4096 * a.value + 256 * b.value + 16 * c.value + d.value;
      if n < 0xD800 || 0xE000 <= n < 0x10000 then Some(n as char) else None
  }

  function ShortEscape(c: char): Option<char>
  {
    if c == '"' || c == '\\' || c == '/' then Some(c)
    else if c == 'b' then Some('\U{8}')
    else if c == 'f' then Some('\U{c}')
    else if c == 'n' then Some('\n')
    else if c == 'r' then Some('\r')
    else if c == 't' then Some('\t')
    else None
  }

  /** One character of a string literal; control characters have to be escaped. */
  function ReadChar(s: string): (r: Option<(char, string)>)
    ensures r.Some? ==> |r.value.1| < |s|
  {
    if |s| == 0 || s[0] < ' ' || s[0] == '"' then None
    else if s[0] != '\\' then Some((s[0], s[1..]))
    else if |s| < 2 then None
    else if s[1] == 'u' then
      if |s| < 6 || ReadHex(s[2..6]).None? then None else Some((ReadHex(s[2..6]).value, s[6..]))
    else if ShortEscape(s[1]).Some? then Some((ShortEscape(s[1]).value, s[2..]))
    else None
  }

  /** The rest of a string literal after its opening quote. */
  function ReadString(s: string): (r: Option<(string, string)>)
    ensures r.Some? ==> |r.value.1| < |s|
    decreases |s|
  {
    if |s| > 0 && s[0] == '"' then Some(("", s[1..]))
    else
      var first := ReadChar(s);
      if first.None? then None
      else
        var rest := ReadString(first.value.1);
        if rest.None? then None else Some(([first.value.0] + rest.value.0, rest.value.1))
  }

  function NumberPrefix(s: string): (n: string)
    ensures n <= s
  {
    if |s| == 0 || !IsNumberChar(s[0]) then "" else [s[0]] + NumberPrefix(s[1..])
  }

  function ReadWord(s: string, word: string, v: Json): (r: Option<(Json, string)>)
    requires |word| > 0
    ensures r.Some? ==> |r.value.1| < |s|
  {
    if word <= s then Some((v, s[|word|..])) else None
  }

  function ReadNumber(s: string): (r: Option<(Json, string)>)
    ensures r.Some? ==> |r.value.1| < |s|
  {
    var n := NumberPrefix(s);
    if n == "" then None else Some((Num(n), s[|n|..]))
  }

  function ReadValue(s: string): (r: Option<(Json, string)>)
    ensures r.Some? ==> |r.value.1| < |s|
    decreases |s|, 0
  {
    if |s| == 0 then None
    else match s[0]
      case 'n' => ReadWord(s, "null", Null)
      case 't' => ReadWord(s, "true", Bool(true))
      case 'f' => ReadWord(s, "false", Bool(false))
      case '"' =>
        var t := ReadString(s[1..]);
        if t.None? then None else Some((Str(t.value.0), t.value.1))
      case '[' => ReadArray(s[1..])
      case '{' => ReadObject(s[1..])
      case _ => ReadNumber(s)
  }

  /** An array after its opening bracket. */
  function ReadArray(s: string): (r: Option<(Json, string)>)
    ensures r.Some? ==> |r.value.1| < |s|
    decreases |s|, 2
  {
    if |s| > 0 && s[0] == ']' then Some((Arr([]), s[1..]))
    else
      var es := ReadElems(s);
      if es.None? then None else Some((Arr(es.value.0), es.value.1))
  }

  /** An object after its opening brace. */
  function ReadObject(s: string): (r: Option<(Json, string)>)
    ensures r.Some? ==> |r.value.1| < |s|
    decreases |s|, 3
  {
    if |s| > 0 && s[0] == '}' then Some((Obj([]), s[1..]))
    else
      var ms := ReadMembers(s);
      if ms.None? then None else Some((Obj(ms.value.0), ms.value.1))
  }

  /** One element or more, to the closing bracket. */
  function ReadElems(s: string): (r: Option<(seq<Json>, string)>)
    ensures r.Some? ==> |r.value.1| < |s|
    decreases |s|, 1
  {
    var first := ReadValue(s);
    if first.None? || |first.value.1| == 0 then None
    else
      var k := first.value.1;
      if k[0] == ']' then Some(([first.value.0], k[1..]))
      else if k[0] != ',' then None
      else
        var rest := ReadElems(k[1..]);
        if rest.None? then None else Some(([first.value.0] + rest.value.0, rest.value.1))
  }

  /** One member: quoted key, colon, value. */
  function ReadMember(s: string): (r: Option<(Member, string)>)
    ensures r.Some? ==> |r.value.1| < |s|
    decreases |s|, 1
  {
    if |s| == 0 || s[0] != '"' then None
    else
      var key := ReadString(s[1..]);
      if key.None? || |key.value.1| == 0 || key.value.1[0] != ':' then None
      else
        var value := ReadValue(key.value.1[1..]);
        if value.None? then None else Some((Member(key.value.0, value.value.0), value.value.1))
  }

  /** One member or more, to the closing brace. */
  function ReadMembers(s: string): (r: Option<(seq<Member>, string)>)
    ensures r.Some? ==> |r.value.1| < |s|
    decreases |s|, 2
  {
    var first := ReadMember(s);
    if first.None? || |first.value.1| == 0 then None
    else
      var k := first.value.1;
      if k[0] == '}' then Some(([first.value.0], k[1..]))
      else if k[0] != ',' then None
      else
        var rest := ReadMembers(k[1..]);
        if rest.None? then None else Some(([first.value.0] + rest.value.0, rest.value.1))
  }

  // ---- What is printed is read back ----

  lemma HexReadsBack(n: nat)
    requires n < 16
    ensures HexDigitOf(HexDigit(n)) == Some(n)
  {
  }

  lemma UnicodeReadsBack(c: char, k: string)
    requires c as int < 0xD800 || 0xE000 <= c as int < 0x10000
    ensures ReadChar(UnicodeEscape(c as int) + k) == Some((c, k))
  {
    var n := c as int;
    var s := UnicodeEscape(n) + k;
    HexReadsBack(n / 4096);
    HexReadsBack(n / 256 % 16);
    HexReadsBack(n / 16 % 16);
    HexReadsBack(n % 16);
    FourDigits(n);
    assert s[2..6] == UnicodeEscape(n)[2..6] && s[6..] == k;
  }

  lemma CharReadsBack(c: char, k: string)
    ensures ReadChar(EscapeChar(c) + k) == Some((c, k)) && (EscapeChar(c) + k)[0] != '"'
  {
    var s := EscapeChar(c) + k;
    assert s[0] == EscapeChar(c)[0] && s[|EscapeChar(c)|..] == k;
    if |EscapeChar(c)| == 6 {
      UnicodeReadsBack(c, k);
    } else if |EscapeChar(c)| == 2 {
      assert s[1] == EscapeChar(c)[1];
    }
  }

  lemma {:induction false} StringReadsBack(s: string, k: string)
    ensures ReadString(StringThen(s, k)) == Some((s, k))
    decreases |s|
  {
    if |s| == 0 {
      assert (['"'] + k)[1..] == k;
    } else {
      CharReadsBack(s[0], StringThen(s[1..], k));
      StringReadsBack(s[1..], k);
      assert [s[0]] + s[1..] == s;
    }
  }

  lemma {:induction false} NumberReadsBack(n: string, k: string)
    requires (forall i :: 0 <= i < |n| ==> IsNumberChar(n[i])) && Ends(k)
    ensures NumberPrefix(n + k) == n
    decreases |n|
  {
    if |n| > 0 {
      assert (n + k)[1..] == n[1..] + k;
      NumberReadsBack(n[1..], k);
    }
  }

  /** A value's text followed by the end or a delimiter is read back as the value, and reading stops there. */
  lemma {:induction false} ValueReadsBack(v: Json, k: string)
    requires LiteralsOk(v) && Ends(k)
    ensures ReadValue(PrintThen(v, k)) == Some((v, k))
    decreases v, 2
  {
    match v {
      case Null => ReadsWord("null", k);
      case Bool(b) => ReadsWord(if b then "true" else "false", k);
      case Num(n) => ReadsNumber(n, k);
      case Str(s) =>
        StringReadsBack(s, k);
        assert (['"'] + StringThen(s, k))[1..] == StringThen(s, k);
      case Arr(es) => ArrayReadsBack(v, k);
      case Obj(ms) => ObjectReadsBack(v, k);
    }
  }

  lemma ReadsWord(word: string, k: string)
    ensures word == "null" ==> ReadValue(word + k) == Some((Null, k))
    ensures word == "true" ==> ReadValue(word + k) == Some((Bool(true), k))
    ensures word == "false" ==> ReadValue(word + k) == Some((Bool(false), k))
  {
    var t := word + k;
    assert t[..|word|] == word && t[|word|..] == k;
    assert |word| > 0 ==> t[0] == word[0];
  }

  lemma ReadsNumber(n: string, k: string)
    requires IsLiteral(n) && Ends(k)
    ensures ReadValue(n + k) == Some((Num(n), k))
  {
    NumberReadsBack(n, k);
    assert (n + k)[|n|..] == k && (n + k)[0] == n[0];
  }

  /** An array's text after its opening bracket. */
  function AfterBracket(v: Json, k: string): string
    requires v.Arr?
  {
    if |v.elems| == 0 then [']'] + k else PrintThen(v.elems[0], ElemsThen(v, v.elems[1..], k))
  }

  lemma {:induction false} ArrayOpens(v: Json, k: string)
    requires v.Arr? && LiteralsOk(v)
    ensures PrintThen(v, k) == ['['] + AfterBracket(v, k)
    ensures |AfterBracket(v, k)| > 0 && (AfterBracket(v, k)[0] == ']' <==> |v.elems| == 0)
  {
    if |v.elems| > 0 {
      FirstOfPrint(v.elems[0], ElemsThen(v, v.elems[1..], k));
    }
  }

  lemma {:induction false} ArrayReadsBack(v: Json, k: string)
    requires v.Arr? && LiteralsOk(v) && Ends(k)
    ensures ReadValue(PrintThen(v, k)) == Some((v, k))
    decreases v, 1, |v.elems| + 1
  {
    var rest := AfterBracket(v, k);
    ArrayOpens(v, k);
    assert (['['] + rest)[1..] == rest && ([']'] + k)[1..] == k;
    if |v.elems| > 0 {
      ElemsReadBack(v, v.elems, k);
    }
    assert ReadArray(rest) == Some((v, k));
  }

  lemma ReadsLastElem(s: string, e: Json, k: string)
    requires ReadValue(s) == Some((e, [']'] + k))
    ensures ReadElems(s) == Some(([e], k))
  {
    assert ([']'] + k)[1..] == k;
  }

  lemma ReadsMoreElems(s: string, e: Json, more: string, es: seq<Json>, k: string)
    requires ReadValue(s) == Some((e, [','] + more)) && ReadElems(more) == Some((es, k))
    ensures ReadElems(s) == Some(([e] + es, k))
  {
    assert ([','] + more)[1..] == more;
  }

  lemma {:induction false} ElemsReadBack(v: Json, es: seq<Json>, k: string)
    requires |es| > 0 && forall i :: 0 <= i < |es| ==> es[i] < v && LiteralsOk(es[i])
    requires Ends(k)
    ensures ReadElems(PrintThen(es[0], ElemsThen(v, es[1..], k))) == Some((es, k))
    decreases v, 1, |es|
  {
    var rest, more := ElemsThen(v, es[1..], k), es[1..];
    ValueReadsBack(es[0], rest);
    if |es| == 1 {
      ReadsLastElem(PrintThen(es[0], rest), es[0], k);
      assert es == [es[0]];
    } else {
      ElemsReadBack(v, more, k);
      ReadsMoreElems(PrintThen(es[0], rest), es[0], PrintThen(more[0], ElemsThen(v, more[1..], k)), more, k);
      assert es == [es[0]] + more;
    }
  }

  lemma {:induction false} ObjectReadsBack(v: Json, k: string)
    requires v.Obj? && LiteralsOk(v) && Ends(k)
    ensures ReadValue(PrintThen(v, k)) == Some((v, k))
    decreases v, 1, |v.members| + 2
  {
    var rest := AfterBrace(v, k);
    ObjectOpens(v, k);
    assert (['{'] + rest)[1..] == rest && (['}'] + k)[1..] == k;
    if |v.members| > 0 {
      MembersReadBack(v, v.members, k);
    }
    assert ReadObject(rest) == Some((v, k));
  }

  lemma ReadsLastMember(s: string, m: Member, k: string)
    requires ReadMember(s) == Some((m, ['}'] + k))
    ensures ReadMembers(s) == Some(([m], k))
  {
    assert (['}'] + k)[1..] == k;
  }

  lemma ReadsMoreMembers(s: string, m: Member, more: string, ms: seq<Member>, k: string)
    requires ReadMember(s) == Some((m, [','] + more)) && ReadMembers(more) == Some((ms, k))
    ensures ReadMembers(s) == Some(([m] + ms, k))
  {
    assert ([','] + more)[1..] == more;
  }

  lemma {:induction false} MemberReadsBack(v: Json, m: Member, k: string)
    requires m.value < v && LiteralsOk(m.value) && Ends(k)
    ensures ReadMember(MemberThen(v, m, k)) == Some((m, k))
    decreases v, 1, 0
  {
    var t, rest := MemberThen(v, m, k), [':'] + PrintThen(m.value, k);
    assert t[1..] == StringThen(m.key, rest) && rest[1..] == PrintThen(m.value, k);
    StringReadsBack(m.key, rest);
    ValueReadsBack(m.value, k);
  }

  lemma {:induction false} MembersReadBack(v: Json, ms: seq<Member>, k: string)
    requires |ms| > 0 && forall i :: 0 <= i < |ms| ==> ms[i].value < v && LiteralsOk(ms[i].value)
    requires Ends(k)
    ensures ReadMembers(MemberThen(v, ms[0], MembersThen(v, ms[1..], k))) == Some((ms, k))
    decreases v, 1, |ms| + 1
  {
    var rest, more := MembersThen(v, ms[1..], k), ms[1..];
    MemberReadsBack(v, ms[0], rest);
    if |ms| == 1 {
      ReadsLastMember(MemberThen(v, ms[0], rest), ms[0], k);
      assert ms == [ms[0]];
    } else {
      MembersReadBack(v, more, k);
      ReadsMoreMembers(MemberThen(v, ms[0], rest), ms[0], MemberThen(v, more[0], MembersThen(v, more[1..], k)), more, k);
      assert ms == [ms[0]] + more;
    }
  }

  // ---- What is read back is the value, its members in order ----

  /** At every level, an object's members come by ascending key. */
  ghost predicate KeysAscend(v: Json)
  {
    match v
    case Arr(es) => forall i :: 0 <= i < |es| ==> KeysAscend(es[i])
    case Obj(ms) =>
      && (forall i :: 0 <= i < |ms| ==> KeysAscend(ms[i].value))
      && (forall i, j :: 0 <= i < j < |ms| ==> Less(ms[i].key, ms[j].key))
    case _ => true
  }

  lemma {:induction false} CanonIsSame(v: Json)
    requires DistinctMembers(v)
    ensures Same(Canon(v), v) && KeysAscend(Canon(v))
    decreases v
  {
    match v {
      case Arr(es) =>
        forall i | 0 <= i < |es| ensures Same(CanonElems(v, es)[i], es[i]) && KeysAscend(CanonElems(v, es)[i]) {
          CanonIsSame(es[i]);
        }
      case Obj(ms) =>
        var cm := CanonMembers(v, ms);
        forall i | 0 <= i < |ms| ensures Same(cm[i].value, ms[i].value) && KeysAscend(cm[i].value) {
          CanonIsSame(ms[i].value);
        }
        SortedIsSame(ms, cm);
      case _ =>
    }
  }

  /** Members with the same keys and values as those of `ms`, in its order. */
  ghost predicate Mirrors(cm: seq<Member>, ms: seq<Member>)
  {
    && |cm| == |ms|
    && forall i :: 0 <= i < |ms| ==> cm[i].key == ms[i].key && Same(cm[i].value, ms[i].value) && KeysAscend(cm[i].value)
  }

  lemma SortedHasSame(ms: seq<Member>, cm: seq<Member>, m: Member)
    requires Mirrors(cm, ms) && m in cm
    ensures HasSame(m, ms) && KeysAscend(m.value)
  {
    var j :| 0 <= j < |cm| && cm[j] == m;
    assert m.key == ms[j].key && Same(m.value, ms[j].value);
  }

  lemma SortedHasKey(ms: seq<Member>, cm: seq<Member>, sorted: seq<Member>, j: nat)
    requires Mirrors(cm, ms) && j < |ms| && forall m :: m in cm ==> m in sorted
    ensures KeyIn(ms[j].key, sorted)
  {
    assert cm[j] in sorted;
    var i :| 0 <= i < |sorted| && sorted[i] == cm[j];
  }

  lemma SortedIsSame(ms: seq<Member>, cm: seq<Member>)
    requires DistinctKeys(ms) && Mirrors(cm, ms)
    ensures Same(Obj(SortMembers(cm)), Obj(ms)) && KeysAscend(Obj(SortMembers(cm)))
  {
    var sorted := SortMembers(cm);
    SortSorts(cm);
    forall i | 0 <= i < |sorted| ensures HasSame(sorted[i], ms) && KeysAscend(sorted[i].value) {
      SortedHasSame(ms, cm, sorted[i]);
    }
    forall j | 0 <= j < |ms| ensures KeyIn(ms[j].key, sorted) {
      SortedHasKey(ms, cm, sorted, j);
    }
    AscendFromSorted(sorted);
  }

  lemma AscendFromSorted(sorted: seq<Member>)
    requires StrictlySortedBy(KeyLess, sorted) && forall i :: 0 <= i < |sorted| ==> KeysAscend(sorted[i].value)
    ensures KeysAscend(Obj(sorted))
  {
    forall i, j | 0 <= i < j < |sorted| ensures Less(sorted[i].key, sorted[j].key) {
      assert KeyLess(sorted[i], sorted[j]);
    }
  }

  /**
   The canonical text is JSON: read back to its end it gives the value it was
   made of, with the members of every object by ascending key.
   */
  lemma CanonicalTextReadsBack(v: Json)
    requires Decoded(v)
    ensures exists c :: ReadValue(CanonicalText(v)) == Some((c, "")) && Same(c, v) && KeysAscend(c)
  {
    CanonKeepsLiterals(v);
    ValueReadsBack(Canon(v), "");
    CanonIsSame(v);
  }

  // ---- No character that HTML or a script would take for its own ----

  /** Printable, and none of the characters the encoder escapes for the sake of HTML. */
  predicate IsSafe(c: char)
  {
    c >= ' ' && c != '<' && c != '>' && c != '&' && c != '\U{2028}' && c != '\U{2029}'
  }

  ghost predicate AllSafe(s: string)
  {
    forall i :: 0 <= i < |s| ==> IsSafe(s[i])
  }

  lemma JoinIsSafe(a: string, b: string)
    requires AllSafe(a) && AllSafe(b)
    ensures AllSafe(a + b)
  {
  }

  lemma HexIsSafe(n: nat)
    requires n < 16
    ensures IsSafe(HexDigit(n))
  {
  }

  lemma EscapeIsSafe(c: char)
    ensures AllSafe(EscapeChar(c))
  {
    if |EscapeChar(c)| == 6 {
      var n := c as int;
      HexIsSafe(n / 4096);
      HexIsSafe(n / 256 % 16);
      HexIsSafe(n / 16 % 16);
      HexIsSafe(n % 16);
    }
  }

  lemma {:induction false} StringIsSafe(s: string, k: string)
    requires AllSafe(k)
    ensures AllSafe(StringThen(s, k))
    decreases |s|
  {
    if |s| == 0 {
      JoinIsSafe(['"'], k);
    } else {
      StringIsSafe(s[1..], k);
      EscapeIsSafe(s[0]);
      JoinIsSafe(EscapeChar(s[0]), StringThen(s[1..], k));
    }
  }

  lemma {:induction false} ValueIsSafe(v: Json, k: string)
    requires LiteralsOk(v) && AllSafe(k)
    ensures AllSafe(PrintThen(v, k))
    decreases v, 2
  {
    match v {
      case Str(s) => StringIsSafe(s, k);
      case Arr(es) =>
        if |es| > 0 {
          ElemsAreSafe(v, es[1..], k);
          ValueIsSafe(es[0], ElemsThen(v, es[1..], k));
        }
      case Obj(ms) =>
        if |ms| > 0 {
          MembersAreSafe(v, ms[1..], k);
          MemberIsSafe(v, ms[0], MembersThen(v, ms[1..], k));
        }
      case _ =>
    }
  }

  lemma {:induction false} ElemsAreSafe(v: Json, es: seq<Json>, k: string)
    requires forall i :: 0 <= i < |es| ==> es[i] < v && LiteralsOk(es[i])
    requires AllSafe(k)
    ensures AllSafe(ElemsThen(v, es, k))
    decreases v, 1, |es|
  {
    if |es| > 0 {
      ElemsAreSafe(v, es[1..], k);
      ValueIsSafe(es[0], ElemsThen(v, es[1..], k));
    }
  }

  lemma {:induction false} MemberIsSafe(v: Json, m: Member, k: string)
    requires m.value < v && LiteralsOk(m.value) && AllSafe(k)
    ensures AllSafe(MemberThen(v, m, k))
    decreases v, 1, 0
  {
    ValueIsSafe(m.value, k);
    StringIsSafe(m.key, [':'] + PrintThen(m.value, k));
  }

  lemma {:induction false} MembersAreSafe(v: Json, ms: seq<Member>, k: string)
    requires forall i :: 0 <= i < |ms| ==> ms[i].value < v && LiteralsOk(ms[i].value)
    requires AllSafe(k)
    ensures AllSafe(MembersThen(v, ms, k))
    decreases v, 1, |ms| + 1
  {
    if |ms| > 0 {
      MembersAreSafe(v, ms[1..], k);
      MemberIsSafe(v, ms[0], MembersThen(v, ms[1..], k));
    }
  }

  /** Nothing in a canonical text needs escaping inside HTML. */
  lemma CanonicalTextIsSafe(v: Json)
    requires Decoded(v)
    ensures AllSafe(CanonicalText(v))
  {
    CanonKeepsLiterals(v);
    ValueIsSafe(Canon(v), "");
  }
}
