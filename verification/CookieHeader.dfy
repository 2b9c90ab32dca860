/** The proxy's Cookie header: parsing, printing, and folding Set-Cookie headers into it
    (cookie-string, section 4.2.1 of RFC 6265; name and value of a Set-Cookie, section 5.2). */
module CookieHeader {
  import opened Common

  // ----- strings as the proxy handles them

  /** White space and line terminators that `trim` removes. */
  predicate IsSpace(c: char) {
    || '\t' <= c <= '\r' || c == ' ' || c == '\U{00A0}' || c == '\U{1680}'
    || '\U{2000}' <= c <= '\U{200A}' || c == '\U{2028}' || c == '\U{2029}' || c == '\U{202F}'
    || c == '\U{205F}' || c == '\U{3000}' || c == '\U{FEFF}'
  }

  function TrimStart(s: string): (t: string)
    ensures |t| <= |s| && t == s[|s| - |t|..]
    ensures t != "" ==> !IsSpace(t[0])
  {
    if s == "" || !IsSpace(s[0]) then s else TrimStart(s[1..])
  }

  function TrimEnd(s: string): (t: string)
    ensures |t| <= |s| && t == s[..|t|]
    ensures t != "" ==> !IsSpace(t[|t| - 1])
    ensures s != "" && !IsSpace(s[0]) ==> t != ""
  {
    if s == "" || !IsSpace(s[|s| - 1]) then s else TrimEnd(s[..|s| - 1])
  }

  function Trim(s: string): (t: string)
    ensures t != "" ==> !IsSpace(t[0]) && !IsSpace(t[|t| - 1])
    ensures forall c <- t :: c in s
  {
    TrimEnd(TrimStart(s))
  }

  function IndexOf(s: string, c: char): (i: int)
    ensures -1 <= i < |s|
    ensures i < 0 <==> c !in s
    ensures i >= 0 ==> s[i] == c && c !in s[..i]
  {
    if s == "" then -1
    else if s[0] == c then 0
    else
      var i := IndexOf(s[1..], c);
      assert s == [s[0]] + s[1..];
      assert i >= 0 ==> s[..i + 1] == [s[0]] + s[1..][..i];
      if i < 0 then -1 else i + 1
  }

  function Split(s: string): (parts: seq<string>)
    ensures parts != []
    ensures forall p <- parts :: ';' !in p
  {
    var i := IndexOf(s, ';');
    if i < 0 then [s] else [s[..i]] + Split(s[i + 1..])
  }

  // ----- cookies

  datatype Cookie = Cookie(name: string, value: string)

  /** A cookie that survives printing and parsing. */
  predicate WellFormed(c: Cookie) {
    && c.name != "" && !IsSpace(c.name[0]) && '=' !in c.name && ';' !in c.name
    && ';' !in c.value && (c.value != "" ==> !IsSpace(c.value[|c.value| - 1]))
  }

  /** An insertion-ordered map of cookies. */
  predicate IsJar(m: seq<Cookie>) {
    && (forall c <- m :: WellFormed(c))
    && forall i, j :: 0 <= i < j < |m| ==> m[i].name != m[j].name
  }

  /** `Map.set`: the value of an existing name changes in place, a new name comes last. */
  function Put(m: seq<Cookie>, c: Cookie): (r: seq<Cookie>)
    ensures |m| <= |r| <= |m| + 1
  {
    if m == [] then [c]
    else if m[0].name == c.name then [c] + m[1..]
    else [m[0]] + Put(m[1..], c)
  }

  function Lookup(m: seq<Cookie>, name: string): Option<string> {
    if m == [] then None
    else if m[0].name == name then Some(m[0].value)
    else Lookup(m[1..], name)
  }

  /** A trimmed part of a Cookie header. */
  function CookieIn(t: string): Option<Cookie> {
    var i := IndexOf(t, '=');
    if i <= 0 then None else Some(Cookie(t[..i], t[i + 1..]))
  }

  function ParsePart(part: string): Option<Cookie> {
    CookieIn(Trim(part))
  }

  /** The map filled with every part that is a cookie, in order. */
  function Fill(found: seq<Option<Cookie>>): seq<Cookie> {
    if found == [] then []
    else
      var m := Fill(found[..|found| - 1]);
      match found[|found| - 1]
      case None => m
      case Some(c) => Put(m, c)
  }

  function ParseParts(parts: seq<string>): (found: seq<Option<Cookie>>)
    ensures |found| == |parts|
    ensures forall i :: 0 <= i < |parts| ==> found[i] == ParsePart(parts[i])
  {
    seq(|parts|, i requires 0 <= i < |parts| => ParsePart(parts[i]))
  }

  function Parse(header: string): seq<Cookie> {
    Fill(ParseParts(Split(header)))
  }

  function Entry(c: Cookie): string {
    c.name + "=" + c.value
  }

  function Print(m: seq<Cookie>): string {
    if m == [] then ""
    else if |m| == 1 then Entry(m[0])
    else Entry(m[0]) + "; " + Print(m[1..])
  }

  lemma TrimmedName(name: string)
    requires name != "" && !IsSpace(name[0])
    ensures Trim(name) != "" && Trim(name)[0] == name[0]
  {
    assert TrimStart(name) == name;
  }

  /** The trimmed text before the first semicolon. */
  function FirstPart(cookie: string): (t: string)
    ensures Trimmed(t)
  {
    var part := Split(cookie)[0];
    assert part in Split(cookie);
    Trim(part)
  }

  function NameValue(first: string): Option<Cookie> {
    var i := IndexOf(first, '=');
    if i <= 0 then None else Some(Cookie(Trim(first[..i]), first[i + 1..]))
  }

  /** The name and value of a Set-Cookie header. */
  function SetCookieNameValue(cookie: string): Option<Cookie> {
    NameValue(FirstPart(cookie))
  }

  lemma NameIsWellFormed(first: string, i: nat)
    requires 0 < i < |first| && !IsSpace(first[0]) && ';' !in first && '=' !in first[..i]
    ensures
      var name := Trim(first[..i]);
      name != "" && !IsSpace(name[0]) && '=' !in name && ';' !in name
  {
    var name := first[..i];
    TrimmedName(name);
    assert forall c <- name :: c in first;
  }

  lemma ValueIsWellFormed(first: string, i: nat)
    requires 0 < i < |first| && !IsSpace(first[|first| - 1]) && ';' !in first
    ensures
      var value := first[i + 1..];
      ';' !in value && (value != "" ==> !IsSpace(value[|value| - 1]))
  {
    var value := first[i + 1..];
    assert forall c <- value :: c in first;
    assert value != "" ==> value[|value| - 1] == first[|first| - 1];
  }

  /** No semicolon, and no white space at either end. */
  predicate Trimmed(t: string) {
    ';' !in t && (t != "" ==> !IsSpace(t[0]) && !IsSpace(t[|t| - 1]))
  }

  lemma NameValueWellFormed(first: string)
    requires Trimmed(first) && NameValue(first).Some?
    ensures WellFormed(NameValue(first).value)
  {
    var i := IndexOf(first, '=');
    NameIsWellFormed(first, i);
    ValueIsWellFormed(first, i);
    WellFormedParts(Trim(first[..i]), first[i + 1..]);
  }

  lemma WellFormedParts(name: string, value: string)
    requires name != "" && !IsSpace(name[0]) && '=' !in name && ';' !in name
    requires ';' !in value && (value != "" ==> !IsSpace(value[|value| - 1]))
    ensures WellFormed(Cookie(name, value))
  {
  }

  lemma SetCookieWellFormed(cookie: string)
    ensures SetCookieNameValue(cookie).Some? ==> WellFormed(SetCookieNameValue(cookie).value)
  {
    if SetCookieNameValue(cookie).Some? {
      NameValueWellFormed(FirstPart(cookie));
    }
  }

  function Upserted(header: string, c: Cookie): string {
    Print(Put(Parse(header), c))
  }

  method SetInMap(m: seq<Cookie>, c: Cookie) returns (r: seq<Cookie>)
    ensures r == Put(m, c)
  {
    var i := 0;
    while i < |m|
      invariant 0 <= i <= |m|
      invariant forall j :: 0 <= j < i ==> m[j].name != c.name
    {
      if m[i].name == c.name {
        PutAt(m, c, i);
        return m[..i] + [c] + m[i + 1..];
      }
      i := i + 1;
    }
    PutNew(m, c);
    return m + [c];
  }

  lemma {:induction false} PutAt(m: seq<Cookie>, c: Cookie, i: nat)
    requires i < |m| && m[i].name == c.name && forall j :: 0 <= j < i ==> m[j].name != c.name
    ensures Put(m, c) == m[..i] + [c] + m[i + 1..]
  {
    if i > 0 {
      PutAt(m[1..], c, i - 1);
      assert [m[0]] + (m[1..][..i - 1] + [c] + m[1..][i..]) == m[..i] + [c] + m[i + 1..];
    }
  }

  /** One turn of the parsing loop, after trimming. */
  method AddPart(m: seq<Cookie>, trimmed: string) returns (r: seq<Cookie>)
    ensures r == if CookieIn(trimmed).Some? then Put(m, CookieIn(trimmed).value) else m
  {
    var separator := IndexOf(trimmed, '=');
    if separator <= 0 {
      return m;
    }
    r := SetInMap(m, Cookie(trimmed[..separator], trimmed[separator + 1..]));
  }

  lemma FillOne(parts: seq<string>, i: nat)
    requires i < |parts|
    ensures Fill(ParseParts(parts[..i + 1]))
         == if ParsePart(parts[i]).Some? then Put(Fill(ParseParts(parts[..i])), ParsePart(parts[i]).value)
            else Fill(ParseParts(parts[..i]))
  {
    assert ParseParts(parts[..i + 1])[..i] == ParseParts(parts[..i]);
  }

  method UpsertCookieHeader(header: string, c: Cookie) returns (r: string)
    ensures r == Upserted(header, c)
  {
    var next: seq<Cookie> := [];
    var parts := Split(header);
    for i := 0 to |parts|
      invariant next == Fill(ParseParts(parts[..i]))
    {
      FillOne(parts, i);
      next := AddPart(next, Trim(parts[i]));
    }
    assert parts[..|parts|] == parts;
    next := SetInMap(next, c);
    r := Print(next);
  }

  // ----- parsing gives jars

  lemma PartIsWellFormed(part: string)
    requires ';' !in part && ParsePart(part).Some?
    ensures WellFormed(ParsePart(part).value)
  {
    var t := Trim(part);
    var i := IndexOf(t, '=');
    assert ';' !in t;
    assert forall c <- t[..i] :: c in t;
  }

  lemma {:induction false} PutKeepsJar(m: seq<Cookie>, c: Cookie)
    requires IsJar(m) && WellFormed(c)
    ensures IsJar(Put(m, c))
    ensures forall d <- Put(m, c) :: d == c || d in m
  {
    if m != [] && m[0].name != c.name {
      assert forall d <- m[1..] :: d in m;
      PutKeepsJar(m[1..], c);
      var r := Put(m[1..], c);
      forall j | 0 <= j < |r| ensures r[j].name != m[0].name {
        assert r[j] in r;
      }
    }
  }

  lemma {:induction false} FillIsJar(found: seq<Option<Cookie>>)
    requires forall f <- found :: f.Some? ==> WellFormed(f.value)
    ensures IsJar(Fill(found))
  {
    if found != [] {
      var last := found[|found| - 1];
      assert last in found;
      FillIsJar(found[..|found| - 1]);
      if last.Some? {
        PutKeepsJar(Fill(found[..|found| - 1]), last.value);
      }
    }
  }

  // ----- printing and parsing back

  lemma {:induction false} IndexOfFirst(a: string, c: char, b: string)
    requires c !in a
    ensures IndexOf(a + [c] + b, c) == |a|
  {
    if a == "" {
      assert (a + [c] + b)[0] == c;
    } else {
      assert a[0] in a && forall x <- a[1..] :: x in a;
      IndexOfFirst(a[1..], c, b);
      assert (a + [c] + b)[0] == a[0] && (a + [c] + b)[1..] == a[1..] + [c] + b;
    }
  }

  lemma SplitAtFirst(a: string, b: string)
    requires ';' !in a
    ensures Split(a + ";" + b) == [a] + Split(b)
  {
    var s := a + ";" + b;
    IndexOfFirst(a, ';', b);
    assert s == a + [';'] + b;
    assert s[..|a|] == a && s[|a| + 1..] == b;
  }

  /** The parts of a printed jar: all but the first with the blank that follows the semicolon. */
  function Parts(m: seq<Cookie>, lead: string): (r: seq<string>)
    ensures |r| == |m|
  {
    seq(|m|, i requires 0 <= i < |m| => (if i == 0 then lead else " ") + Entry(m[i]))
  }

  lemma EntryHasNoSemicolon(c: Cookie)
    requires WellFormed(c)
    ensures ';' !in Entry(c) && ';' !in " " + Entry(c)
  {
  }

  lemma {:induction false} SplitPrinted(m: seq<Cookie>, lead: string)
    requires m != [] && (forall c <- m :: WellFormed(c)) && (lead == "" || lead == " ")
    ensures Split(lead + Print(m)) == Parts(m, lead)
  {
    var e := lead + Entry(m[0]);
    EntryHasNoSemicolon(m[0]);
    assert lead + Entry(m[0]) == Entry(m[0]) || lead == " ";
    if |m| == 1 {
      assert Split(e) == [e];
      assert Parts(m, lead) == [e];
    } else {
      SplitPrinted(m[1..], " ");
      PrintedTail(m, lead);
      SplitAtFirst(e, " " + Print(m[1..]));
      PartsTail(m, lead);
    }
  }

  lemma PrintedTail(m: seq<Cookie>, lead: string)
    requires |m| > 1
    ensures lead + Print(m) == lead + Entry(m[0]) + ";" + (" " + Print(m[1..]))
  {
    Regroup(lead, Entry(m[0]), Print(m[1..]));
  }

  lemma Regroup(lead: string, a: string, b: string)
    ensures lead + (a + "; " + b) == lead + a + ";" + (" " + b)
  {
  }

  lemma PartsTail(m: seq<Cookie>, lead: string)
    requires m != []
    ensures Parts(m, lead) == [lead + Entry(m[0])] + Parts(m[1..], " ")
  {
  }

  lemma TrimEntry(e: string)
    requires e != "" && !IsSpace(e[0]) && !IsSpace(e[|e| - 1])
    ensures Trim(e) == e && Trim(" " + e) == e
  {
    assert TrimStart(e) == e && TrimEnd(e) == e;
    assert (" " + e)[0] == ' ' && (" " + e)[1..] == e;
  }

  lemma EntryParts(c: Cookie)
    requires WellFormed(c)
    ensures
      var e := Entry(c);
      && e != "" && !IsSpace(e[0]) && !IsSpace(e[|e| - 1])
      && IndexOf(e, '=') == |c.name|
      && e[..|c.name|] == c.name && e[|c.name| + 1..] == c.value
  {
    var e := Entry(c);
    IndexOfFirst(c.name, '=', c.value);
    assert e == c.name + ['='] + c.value;
    assert e[0] == c.name[0];
    assert e[|e| - 1] == if c.value == "" then '=' else c.value[|c.value| - 1];
  }

  lemma PartOfEntry(c: Cookie)
    requires WellFormed(c)
    ensures ParsePart(Entry(c)) == Some(c) && ParsePart(" " + Entry(c)) == Some(c)
  {
    EntryParts(c);
    TrimEntry(Entry(c));
  }

  lemma {:induction false} PutNew(m: seq<Cookie>, c: Cookie)
    requires forall d <- m :: d.name != c.name
    ensures Put(m, c) == m + [c]
  {
    if m != [] {
      assert m[0] in m && forall d <- m[1..] :: d in m;
      PutNew(m[1..], c);
      assert m == [m[0]] + m[1..];
    }
  }

  lemma {:induction false} FillAll(found: seq<Option<Cookie>>, m: seq<Cookie>)
    requires |found| == |m| && IsJar(m)
    requires forall i :: 0 <= i < |m| ==> found[i] == Some(m[i])
    ensures Fill(found) == m
  {
    if m != [] {
      var n := |m| - 1;
      JarPrefix(m);
      FillAll(found[..n], m[..n]);
      PutNew(m[..n], m[n]);
      assert m[..n] + [m[n]] == m;
    }
  }

  lemma JarPrefix(m: seq<Cookie>)
    requires IsJar(m) && m != []
    ensures IsJar(m[..|m| - 1]) && WellFormed(m[|m| - 1])
    ensures forall d <- m[..|m| - 1] :: d.name != m[|m| - 1].name
  {
    assert m[|m| - 1] in m;
    forall c | c in m[..|m| - 1] ensures c in m {
    }
  }

  lemma PartParses(m: seq<Cookie>, i: nat)
    requires i < |m| && WellFormed(m[i])
    ensures ParsePart(Parts(m, "")[i]) == Some(m[i])
  {
    PartOfEntry(m[i]);
    PartIsEntry(m, i);
  }

  lemma PartIsEntry(m: seq<Cookie>, i: nat)
    requires i < |m|
    ensures Parts(m, "")[i] == if i == 0 then Entry(m[i]) else " " + Entry(m[i])
  {
    EmptyLead(Entry(m[i]));
  }

  lemma EmptyLead(e: string)
    ensures "" + e == e
  {
  }

  /** Printing loses nothing: parsing a printed jar gives it back, names, values and order. */
  lemma ParsePrinted(m: seq<Cookie>)
    requires IsJar(m)
    ensures Parse(Print(m)) == m
  {
    if m == [] {
      assert Split("") == [""];
      assert ParsePart("") == None;
      assert ParseParts([""])[..0] == [];
    } else {
      SplitPrinted(m, "");
      assert "" + Print(m) == Print(m);
      forall i | 0 <= i < |m| ensures ParsePart(Parts(m, "")[i]) == Some(m[i]) {
        assert m[i] in m;
        PartParses(m, i);
      }
      FillAll(ParseParts(Parts(m, "")), m);
    }
  }

  lemma ParseIsJar(header: string)
    ensures IsJar(Parse(header))
  {
    var parts := Split(header);
    forall f | f in ParseParts(parts) && f.Some? ensures WellFormed(f.value) {
      var i :| 0 <= i < |parts| && f == ParsePart(parts[i]);
      PartIsWellFormed(parts[i]);
    }
    FillIsJar(ParseParts(parts));
  }

  /** For every header and every cookie a Set-Cookie yields, the header the proxy writes parses to
      the old cookies with just that one updated in place or appended. */
  lemma UpsertRoundTrip(header: string, cookie: string)
    ensures SetCookieNameValue(cookie).Some? ==>
      Parse(Upserted(header, SetCookieNameValue(cookie).value))
        == Put(Parse(header), SetCookieNameValue(cookie).value)
  {
    var c := SetCookieNameValue(cookie);
    if c.Some? {
      ParseIsJar(header);
      SetCookieWellFormed(cookie);
      PutKeepsJar(Parse(header), c.value);
      ParsePrinted(Put(Parse(header), c.value));
    }
  }

  // ----- all Set-Cookie headers of a response

  function Refreshed(header: string, cookies: seq<string>): string {
    if cookies == [] then header
    else
      var h := Refreshed(header, cookies[..|cookies| - 1]);
      match SetCookieNameValue(cookies[|cookies| - 1])
      case None => h
      case Some(c) => Upserted(h, c)
  }

  lemma RefreshedOne(header: string, cookies: seq<string>, i: nat)
    requires i < |cookies|
    ensures
      var h := Refreshed(header, cookies[..i]);
      Refreshed(header, cookies[..i + 1])
        == match SetCookieNameValue(cookies[i]) case None => h case Some(c) => Upserted(h, c)
  {
    assert cookies[..i + 1][..i] == cookies[..i];
  }

  /** The fold over the Set-Cookie headers, as the proxy runs it. */
  method RefreshCookieHeader(header: string, cookies: seq<string>) returns (cookieHeader: string)
    ensures cookieHeader == Refreshed(header, cookies)
  {
    cookieHeader := header;
    for i := 0 to |cookies|
      invariant cookieHeader == Refreshed(header, cookies[..i])
    {
      RefreshedOne(header, cookies, i);
      var parsed := SetCookieNameValue(cookies[i]);
      if parsed.Some? {
        cookieHeader := UpsertCookieHeader(cookieHeader, parsed.value);
      }
    }
    assert cookies[..|cookies|] == cookies;
  }

  /** What the last Set-Cookie of that name sets, if there is one. */
  function LastWritten(cookies: seq<string>, name: string): Option<string> {
    if cookies == [] then None
    else
      var c := SetCookieNameValue(cookies[|cookies| - 1]);
      if c.Some? && c.value.name == name then Some(c.value.value)
      else LastWritten(cookies[..|cookies| - 1], name)
  }

  lemma {:induction false} PutLookup(m: seq<Cookie>, c: Cookie, name: string)
    ensures Lookup(Put(m, c), name) == if name == c.name then Some(c.value) else Lookup(m, name)
  {
    if m != [] && m[0].name != c.name {
      PutLookup(m[1..], c, name);
    }
  }

  lemma {:induction false} PutNames(m: seq<Cookie>, c: Cookie)
    ensures forall i :: 0 <= i < |m| ==> Put(m, c)[i].name == m[i].name
  {
    if m != [] && m[0].name != c.name {
      PutNames(m[1..], c);
    }
  }

  /** After all Set-Cookie headers every name has the value of its last writer, names nobody wrote
      keep theirs, and the cookies that were there keep their places. */
  lemma {:induction false} LastWriterWins(header: string, cookies: seq<string>, name: string)
    ensures Lookup(Parse(Refreshed(header, cookies)), name)
         == (if LastWritten(cookies, name).Some? then LastWritten(cookies, name) else Lookup(Parse(header), name))
    ensures IsJar(Parse(Refreshed(header, cookies)))
    ensures |Parse(header)| <= |Parse(Refreshed(header, cookies))|
    ensures forall i :: 0 <= i < |Parse(header)| ==>
      Parse(Refreshed(header, cookies))[i].name == Parse(header)[i].name
  {
    ParseIsJar(Refreshed(header, cookies));
    if cookies != [] {
      var p, last := cookies[..|cookies| - 1], cookies[|cookies| - 1];
      LastWriterWins(header, p, name);
      var c := SetCookieNameValue(last);
      if c.Some? {
        UpsertRoundTrip(Refreshed(header, p), last);
        PutLookup(Parse(Refreshed(header, p)), c.value, name);
        PutNames(Parse(Refreshed(header, p)), c.value);
      }
    }
  }

  // ----- the texts behind the cookies

  predicate Blank(s: string) {
    forall c <- s :: IsSpace(c)
  }

  /** A Set-Cookie header as sent: white space around the pair and before the equals sign, then perhaps
      attributes. */
  datatype Sent = Sent(cookie: Cookie, lead: string, pad: string, trail: string, attributes: Option<string>) {
    function Pair(): string {
      cookie.name + pad + "=" + cookie.value
    }

    function Text(): string {
      lead + Pair() + trail + (if attributes.Some? then ";" + attributes.value else "")
    }

    predicate Valid() {
      && WellFormed(cookie) && !IsSpace(cookie.name[|cookie.name| - 1])
      && Blank(lead) && Blank(pad) && Blank(trail)
    }
  }

  lemma HeadOfConcat(a: string, b: string)
    requires a != ""
    ensures (a + b)[0] == a[0] && (a + b)[1..] == a[1..] + b
  {
  }

  lemma EndOfConcat(a: string, b: string)
    requires b != ""
    ensures (a + b)[|a + b| - 1] == b[|b| - 1] && (a + b)[..|a + b| - 1] == a + b[..|b| - 1]
  {
  }

  lemma {:induction false} TrimStartBlank(lead: string, t: string)
    requires Blank(lead) && t != "" && !IsSpace(t[0])
    ensures TrimStart(lead + t) == t
  {
    if lead == "" {
      assert lead + t == t;
    } else {
      BlankHead(lead);
      TrimStartBlank(lead[1..], t);
      HeadOfConcat(lead, t);
    }
  }

  lemma BlankHead(s: string)
    requires Blank(s) && s != ""
    ensures IsSpace(s[0]) && Blank(s[1..]) && IsSpace(s[|s| - 1]) && Blank(s[..|s| - 1])
  {
    assert s[0] in s && s[|s| - 1] in s;
    assert (forall c <- s[1..] :: c in s) && forall c <- s[..|s| - 1] :: c in s;
  }

  lemma {:induction false} TrimEndBlank(t: string, trail: string)
    requires Blank(trail) && (t == "" || !IsSpace(t[|t| - 1]))
    ensures TrimEnd(t + trail) == t
  {
    if trail == "" {
      assert t + trail == t;
    } else {
      BlankHead(trail);
      TrimEndBlank(t, trail[..|trail| - 1]);
      EndOfConcat(t, trail);
    }
  }

  lemma TrimBlank(lead: string, t: string, trail: string)
    requires Blank(lead) && Blank(trail) && t != "" && !IsSpace(t[0]) && !IsSpace(t[|t| - 1])
    ensures Trim(lead + t + trail) == t
  {
    assert lead + t + trail == lead + (t + trail);
    TrimStartBlank(lead, t + trail);
    TrimEndBlank(t, trail);
  }

  lemma BlankHasNo(s: string)
    requires Blank(s)
    ensures ';' !in s && '=' !in s
  {
  }

  lemma PairShape(p: Sent)
    requires p.Valid()
    ensures p.Pair() != "" && !IsSpace(p.Pair()[0]) && !IsSpace(p.Pair()[|p.Pair()| - 1]) && ';' !in p.Pair()
  {
    BlankHasNo(p.pad);
    var s := p.Pair();
    assert s[0] == p.cookie.name[0];
    assert s[|s| - 1] == if p.cookie.value == "" then '=' else p.cookie.value[|p.cookie.value| - 1];
  }

  lemma FirstPartIsPair(p: Sent)
    requires p.Valid()
    ensures FirstPart(p.Text()) == p.Pair()
  {
    PairShape(p);
    BlankHasNo(p.lead);
    BlankHasNo(p.trail);
    var part := p.lead + p.Pair() + p.trail;
    assert ';' !in part;
    if p.attributes.Some? {
      assert p.Text() == part + ";" + p.attributes.value;
      SplitAtFirst(part, p.attributes.value);
    } else {
      assert p.Text() == part;
      assert Split(part) == [part];
    }
    TrimBlank(p.lead, p.Pair(), p.trail);
  }

  lemma PairNameValue(p: Sent)
    requires p.Valid()
    ensures NameValue(p.Pair()) == Some(p.cookie)
  {
    var name := p.cookie.name + p.pad;
    BlankHasNo(p.pad);
    assert '=' !in name;
    IndexOfFirst(name, '=', p.cookie.value);
    assert p.Pair() == name + ['='] + p.cookie.value;
    assert p.Pair()[..|name|] == name && p.Pair()[|name| + 1..] == p.cookie.value;
    assert "" + p.cookie.name + p.pad == name;
    TrimBlank("", p.cookie.name, p.pad);
  }

  /** Name and value are taken from the text as they were sent, whatever attributes follow and whatever
      white space stands around them. */
  lemma SentIsReceived(p: Sent)
    requires p.Valid()
    ensures SetCookieNameValue(p.Text()) == Some(p.cookie)
  {
    FirstPartIsPair(p);
    PairNameValue(p);
  }

  /** A header without a name before an equals sign in its first part yields no cookie. */
  lemma NothingReceived(lead: string, first: string, attributes: Option<string>)
    requires Blank(lead) && ';' !in first && (first == "" || '=' !in first || first[0] == '=')
    ensures SetCookieNameValue(lead + first + (if attributes.Some? then ";" + attributes.value else "")).None?
  {
    BlankHasNo(lead);
    var part := lead + first;
    var text := part + (if attributes.Some? then ";" + attributes.value else "");
    if attributes.Some? {
      assert text == part + ";" + attributes.value;
      SplitAtFirst(part, attributes.value);
    } else {
      assert text == part;
      assert Split(part) == [part];
    }
    TrimFirst(lead, first);
  }

  lemma TrimFirst(lead: string, first: string)
    requires Blank(lead) && (first == "" || '=' !in first || first[0] == '=')
    ensures IndexOf(Trim(lead + first), '=') <= 0
  {
    BlankHasNo(lead);
    if first != "" && first[0] == '=' {
      TrimStartBlank(lead, first);
      assert TrimEnd(first) == first[..|TrimEnd(first)|];
    } else {
      assert '=' !in lead + first;
    }
  }

  function Texts(sent: seq<Sent>): (texts: seq<string>)
    ensures |texts| == |sent|
  {
    seq(|sent|, i requires 0 <= i < |sent| => sent[i].Text())
  }

  function Cookies(sent: seq<Sent>): (cs: seq<Cookie>)
    ensures |cs| == |sent|
  {
    seq(|sent|, i requires 0 <= i < |sent| => sent[i].cookie)
  }

  /** The value sent last under a name. */
  function LastSent(cs: seq<Cookie>, name: string): Option<string> {
    if cs == [] then None
    else if cs[|cs| - 1].name == name then Some(cs[|cs| - 1].value)
    else LastSent(cs[..|cs| - 1], name)
  }

  lemma {:induction false} LastSentIsWritten(texts: seq<string>, cs: seq<Cookie>, name: string)
    requires |texts| == |cs| && forall i :: 0 <= i < |cs| ==> SetCookieNameValue(texts[i]) == Some(cs[i])
    ensures LastWritten(texts, name) == LastSent(cs, name)
  {
    if cs != [] {
      var n := |cs| - 1;
      LastSentIsWritten(texts[..n], cs[..n], name);
    }
  }

  /** After a response the Cookie header holds exactly the values sent last; every other name keeps its
      value. */
  lemma SentValuesArrive(header: string, sent: seq<Sent>, name: string)
    requires forall p <- sent :: p.Valid()
    ensures Lookup(Parse(Refreshed(header, Texts(sent))), name)
         == (if LastSent(Cookies(sent), name).Some? then LastSent(Cookies(sent), name) else Lookup(Parse(header), name))
  {
    forall i | 0 <= i < |sent| ensures SetCookieNameValue(Texts(sent)[i]) == Some(Cookies(sent)[i]) {
      assert sent[i] in sent;
      SentIsReceived(sent[i]);
    }
    LastSentIsWritten(Texts(sent), Cookies(sent), name);
    LastWriterWins(header, Texts(sent), name);
  }

  /** A printed header is the pairs `name=value`, separated by a semicolon and a blank. */
  lemma {:induction false} PrintedText(m: seq<Cookie>, c: Cookie)
    ensures Print([c]) == c.name + "=" + c.value
    ensures m != [] ==> Print(m + [c]) == Print(m) + "; " + (c.name + "=" + c.value)
  {
    if m != [] {
      assert (m + [c])[1..] == m[1..] + [c];
      if |m| > 1 {
        PrintedText(m[1..], c);
        PrintedMore(Entry(m[0]), Print(m[1..]), Entry(c));
      } else {
        assert (m + [c])[1..] == [c];
      }
    }
  }

  lemma PrintedMore(a: string, b: string, c: string)
    ensures a + "; " + (b + "; " + c) == a + "; " + b + "; " + c
  {
  }
}
