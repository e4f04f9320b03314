/** Station URLs and stored properties: printers and parsers. */
module StationUrls {
  import opened Basics
  import opened OrderedMap
  import opened Text

  // ---- station URLs ----

  datatype StationURL = StationURL(scheme: string, address: string, port: nat, params: Entries<string, string>)

  /** The first position of ":/". */
  function SchemeEnd(s: string): (r: Option<nat>)
    ensures r.Some? ==> r.value + 2 <= |s|
  {
    if |s| < 2 then None
    else if s[0] == ':' && s[1] == '/' then Some(0)
    else match SchemeEnd(s[1..]) case None => None case Some(i) => Some(i + 1)
  }

  function ParseParam(part: string): Result<(string, string)> {
    var eq := IndexOf(part, '=');
    if eq == |part| then Err(StreamError) else Ok((part[..eq], part[eq + 1..]))
  }

  /** The parameters in order of first appearance; a repeated key keeps its place and takes the last value. */
  function ParseParams(parts: seq<string>): Result<Entries<string, string>> {
    if parts == [] then Ok([]) else
    var params :- ParseParams(parts[..|parts| - 1]);
    var (key, value) :- ParseParam(parts[|parts| - 1]);
    Ok(Put(params, key, value))
  }

  /** An optional plus sign and decimal digits, at most 0xffff. */
  function ParsePort(s: string): Result<nat> {
    var digits := if s != [] && s[0] == '+' then s[1..] else s;
    if digits != [] && AllDigits(digits) && ParseDigits(digits) <= 0xffff
    then Ok(ParseDigits(digits)) else Err(StreamError)
  }

  function FromParams(scheme: string, params: Entries<string, string>): Result<StationURL> {
    match (Get(params, "address"), Get(params, "port"))
    case (Some(address), Some(port)) =>
      var number :- ParsePort(port);
      Ok(StationURL(scheme, address, number, Delete(Delete(params, "address"), "port")))
    case _ => Err(StreamError)
  }

  function ParseUrl(s: string): Result<StationURL> {
    match SchemeEnd(s)
    case None => Err(StreamError)
    case Some(end) =>
      var params :- ParseParams(Split(s[end + 2..], ';'));
      FromParams(s[..end], params)
  }

  function PrintParam(p: (string, string)): string {
    p.0 + ['='] + p.1
  }

  function AllParams(u: StationURL): Entries<string, string> {
    [("address", u.address), ("port", Digits(u.port))] + u.params
  }

  function PrintParams(params: Entries<string, string>): (parts: seq<string>)
    ensures |parts| == |params|
  {
    seq(|params|, i requires 0 <= i < |params| => PrintParam(params[i]))
  }

  function PrintUrl(u: StationURL): string {
    u.scheme + ":/" + Join(PrintParams(AllParams(u)), ';')
  }

  /** The URLs that survive printing: what a caller building one by hand has to respect. */
  ghost predicate Printable(u: StationURL) {
    && SchemeEnd(u.scheme) == None
    && ';' !in u.address
    && u.port <= 0xffff
    && Distinct(u.params)
    && forall e :: e in u.params ==>
         e.0 != "address" && e.0 != "port" && '=' !in e.0 && ';' !in e.0 && ';' !in e.1
  }

  lemma {:induction false} SchemeEndPrefix(scheme: string, rest: string)
    requires SchemeEnd(scheme) == None
    ensures SchemeEnd(scheme + ":/" + rest) == Some(|scheme|)
  {
    var s := scheme + ":/" + rest;
    if scheme == [] {
    } else {
      SchemeEndPrefix(scheme[1..], rest);
      assert s[1..] == scheme[1..] + ":/" + rest;
      assert |scheme| > 1 ==> s[1] == scheme[1];
    }
  }

  lemma {:induction false} SchemeEndFirst(s: string)
    requires SchemeEnd(s).Some?
    ensures SchemeEnd(s[..SchemeEnd(s).value]) == None
    ensures s == s[..SchemeEnd(s).value] + ":/" + s[SchemeEnd(s).value + 2..]
  {
    var end := SchemeEnd(s).value;
    if end == 0 {
    } else {
      SchemeEndFirst(s[1..]);
      assert s[..end][1..] == s[1..][..end - 1];
    }
  }

  lemma ParsePrintParam(p: (string, string))
    requires '=' !in p.0
    ensures ParseParam(PrintParam(p)) == Ok(p)
  {
    IndexOfPrefix(p.0, '=', p.1);
    var s := PrintParam(p);
    assert s[..|p.0|] == p.0 && s[|p.0| + 1..] == p.1;
  }

  lemma {:induction false} ParsePrintParams(params: Entries<string, string>)
    requires Distinct(params)
    requires forall i :: 0 <= i < |params| ==> '=' !in params[i].0
    ensures ParseParams(PrintParams(params)) == Ok(params)
  {
    if params == [] {
    } else {
      var init, last := params[..|params| - 1], params[|params| - 1];
      ParsePrintParams(init);
      ParsePrintParam(last);
      assert PrintParams(params)[..|params| - 1] == PrintParams(init);
      HasKey(init, last.0);
      assert params == init + [last];
    }
  }

  lemma DigitsParsePort(port: nat)
    requires port <= 0xffff
    ensures ParsePort(Digits(port)) == Ok(port)
  {
    ParseDigitsDigits(port);
    assert IsDigit(Digits(port)[0]);
  }

  lemma AllParamsWellFormed(u: StationURL)
    requires Printable(u)
    ensures Distinct(AllParams(u))
    ensures forall i :: 0 <= i < |AllParams(u)| ==> '=' !in AllParams(u)[i].0
    ensures NoneContains(PrintParams(AllParams(u)), ';')
  {
    var ps := AllParams(u);
    forall i | 0 <= i < |ps| ensures '=' !in ps[i].0 && ';' !in PrintParam(ps[i]) {
      assert i >= 2 ==> ps[i] in u.params;
      DigitsOnly(u.port, ';');
    }
    forall i, j | 0 <= i < j < |ps| ensures ps[i].0 != ps[j].0 {
      assert j >= 2 ==> ps[j] in u.params && ps[j] == u.params[j - 2];
      assert i >= 2 ==> ps[i] == u.params[i - 2];
    }
  }

  lemma FromAllParams(u: StationURL)
    requires Printable(u)
    ensures FromParams(u.scheme, AllParams(u)) == Ok(u)
  {
    var ps := AllParams(u);
    AllParamsWellFormed(u);
    FindAt(ps, 0);
    FindAt(ps, 1);
    DigitsParsePort(u.port);
    var rest := Delete(ps, "address");
    assert rest == [("port", Digits(u.port))] + u.params;
    assert Find(rest, "port") == 0;
    assert Delete(rest, "port") == u.params;
  }

  lemma PrintableSurvives(u: StationURL)
    requires Printable(u)
    ensures ParseUrl(PrintUrl(u)) == Ok(u)
  {
    var parts := PrintParams(AllParams(u));
    var s := PrintUrl(u);
    SchemeEndPrefix(u.scheme, Join(parts, ';'));
    assert s[..|u.scheme|] == u.scheme && s[|u.scheme| + 2..] == Join(parts, ';');
    AllParamsWellFormed(u);
    SplitJoin(parts, ';');
    ParsePrintParams(AllParams(u));
    FromAllParams(u);
  }

  ghost predicate ParsedParams(params: Entries<string, string>) {
    Distinct(params) && forall e :: e in params ==> '=' !in e.0 && ';' !in e.0 && ';' !in e.1
  }

  lemma {:induction false} ParseParamsWellFormed(parts: seq<string>)
    requires NoneContains(parts, ';') && ParseParams(parts).Ok?
    ensures ParsedParams(ParseParams(parts).value)
  {
    if parts == [] {
    } else {
      var init, last := parts[..|parts| - 1], parts[|parts| - 1];
      ParseParamsWellFormed(init);
      var params, p := ParseParams(init).value, ParseParam(last).value;
      PutDistinct(params, p.0, p.1);
      assert forall e :: e in Put(params, p.0, p.1) ==> e == p || e in params;
    }
  }

  lemma ParsedIsPrintable(s: string)
    requires ParseUrl(s).Ok?
    ensures Printable(ParseUrl(s).value)
  {
    var end := SchemeEnd(s).value;
    var parts := Split(s[end + 2..], ';');
    SchemeEndFirst(s);
    SplitParts(s[end + 2..], ';');
    ParseParamsWellFormed(parts);
    var params := ParseParams(parts).value;
    assert params[Find(params, "address")] in params;
    DeleteDistinct(params, "address");
    var rest := Delete(params, "address");
    DeleteDistinct(rest, "port");
    var last := Delete(rest, "port");
    HasKey(rest, "address");
    HasKey(last, "port");
  }

  /** Printing keeps exactly the printable URLs. */
  lemma PrintThenParse(u: StationURL)
    ensures ParseUrl(PrintUrl(u)) == Ok(u) <==> Printable(u)
  {
    if Printable(u) {
      PrintableSurvives(u);
    } else if ParseUrl(PrintUrl(u)) == Ok(u) {
      ParsedIsPrintable(PrintUrl(u));
    }
  }

  /** Printing a parsed URL and parsing it again gives the same URL, parameter order included. */
  lemma ParsePrintParse(s: string)
    requires ParseUrl(s).Ok?
    ensures ParseUrl(PrintUrl(ParseUrl(s).value)) == ParseUrl(s)
  {
    ParsedIsPrintable(s);
    PrintableSurvives(ParseUrl(s).value);
  }

  // ---- the printed form ----

  function KeyOf(part: string): string {
    part[..IndexOf(part, '=')]
  }

  /** The parts of a printed URL: address and a plain port first, then other parameters with distinct keys. */
  ghost predicate PrintedParts(parts: seq<string>) {
    && |parts| >= 2 && "address=" <= parts[0] && "port=" <= parts[1]
    && Plain(parts[1][5..]) && ParseDigits(parts[1][5..]) <= 0xffff
    && (forall j :: 2 <= j < |parts| ==>
          '=' in parts[j] && KeyOf(parts[j]) != "address" && KeyOf(parts[j]) != "port")
    && (forall j, k :: 2 <= j < k < |parts| ==> KeyOf(parts[j]) != KeyOf(parts[k]))
  }

  ghost predicate InPrintedForm(s: string) {
    SchemeEnd(s).Some? && PrintedParts(Split(s[SchemeEnd(s).value + 2..], ';'))
  }

  lemma PartIsParam(part: string)
    requires '=' in part
    ensures var eq := IndexOf(part, '=');
            eq < |part| && PrintParam((part[..eq], part[eq + 1..])) == part && '=' !in part[..eq]
  {
    hide IndexOf;
    var eq := IndexOf(part, '=');
    assert part[..|part|] == part;
    Cut(part, eq);
  }

  lemma Cut(s: string, k: nat)
    requires k < |s|
    ensures s[..k] + [s[k]] + s[k + 1..] == s
  {}

  /** The URL whose printed form has these parts. */
  ghost function FromPrinted(scheme: string, parts: seq<string>): (u: StationURL)
    requires PrintedParts(parts)
  {
    StationURL(scheme, parts[0][8..], ParseDigits(parts[1][5..]),
               seq(|parts| - 2, j requires 0 <= j < |parts| - 2 =>
                 (KeyOf(parts[j + 2]), parts[j + 2][IndexOf(parts[j + 2], '=')..][1..])))
  }

  lemma HeadIsPrinted(scheme: string, parts: seq<string>)
    requires PrintedParts(parts)
    ensures var all := AllParams(FromPrinted(scheme, parts));
            |all| == |parts| && PrintParam(all[0]) == parts[0] && PrintParam(all[1]) == parts[1]
  {
    PlainDigits(parts[1][5..]);
    assert parts[0] == "address=" + parts[0][8..] && parts[1] == "port=" + parts[1][5..];
  }

  lemma OtherIsPrinted(scheme: string, parts: seq<string>, j: nat)
    requires PrintedParts(parts) && 2 <= j < |parts|
    ensures PrintParam(AllParams(FromPrinted(scheme, parts))[j]) == parts[j]
  {
    PartIsParam(parts[j]);
    var eq := IndexOf(parts[j], '=');
    assert parts[j][eq..][1..] == parts[j][eq + 1..];
  }

  lemma PartsArePrinted(scheme: string, parts: seq<string>)
    requires PrintedParts(parts)
    ensures PrintParams(AllParams(FromPrinted(scheme, parts))) == parts
  {
    hide FromPrinted, PrintedParts, AllParams, PrintParam;
    HeadIsPrinted(scheme, parts);
    var printed := PrintParams(AllParams(FromPrinted(scheme, parts)));
    forall j | 0 <= j < |parts| ensures printed[j] == parts[j] {
      if j >= 2 {
        OtherIsPrinted(scheme, parts, j);
      }
    }
  }

  lemma FromPrintedIsPrintable(scheme: string, parts: seq<string>)
    requires PrintedParts(parts) && NoneContains(parts, ';') && SchemeEnd(scheme) == None
    ensures Printable(FromPrinted(scheme, parts))
  {
    var u := FromPrinted(scheme, parts);
    assert forall c :: c in u.address ==> c in parts[0];
    forall e | e in u.params
      ensures e.0 != "address" && e.0 != "port" && '=' !in e.0 && ';' !in e.0 && ';' !in e.1
    {
      var j :| 0 <= j < |u.params| && u.params[j] == e;
      ParamLacks(parts[j + 2], ';');
    }
  }

  lemma ParamLacks(part: string, c: char)
    requires '=' in part && c !in part
    ensures '=' !in KeyOf(part) && c !in KeyOf(part)
    ensures IndexOf(part, '=') < |part| && c !in part[IndexOf(part, '=')..][1..]
  {
    hide IndexOf;
    PartIsParam(part);
    assert forall d :: d in KeyOf(part) ==> d in part;
    assert forall d :: d in part[IndexOf(part, '=')..][1..] ==> d in part;
  }

  lemma PrintedReparses(s: string)
    requires InPrintedForm(s)
    ensures ParseUrl(s).Ok? && PrintUrl(ParseUrl(s).value) == s
  {
    hide ParseUrl, Printable, PrintedParts;
    var end := SchemeEnd(s).value;
    var parts := Split(s[end + 2..], ';');
    SchemeEndFirst(s);
    SplitParts(s[end + 2..], ';');
    JoinSplit(s[end + 2..], ';');
    PartsArePrinted(s[..end], parts);
    FromPrintedIsPrintable(s[..end], parts);
    PrintableSurvives(FromPrinted(s[..end], parts));
  }

  lemma PrintedHasForm(u: StationURL)
    requires Printable(u)
    ensures InPrintedForm(PrintUrl(u))
  {
    var parts := PrintParams(AllParams(u));
    var s := PrintUrl(u);
    SchemeEndPrefix(u.scheme, Join(parts, ';'));
    assert s[|u.scheme| + 2..] == Join(parts, ';');
    AllParamsWellFormed(u);
    SplitJoin(parts, ';');
    PrintedPartsOf(u);
  }

  lemma PrintedPartsOf(u: StationURL)
    requires Printable(u)
    ensures PrintedParts(PrintParams(AllParams(u)))
  {
    var ps := AllParams(u);
    var parts := PrintParams(ps);
    DigitsPlain(u.port);
    ParseDigitsDigits(u.port);
    assert parts[0][..8] == "address=" && parts[1][..5] == "port=" && parts[1][5..] == Digits(u.port);
    forall j | 2 <= j < |parts| ensures '=' in parts[j] && KeyOf(parts[j]) == ps[j].0 {
      assert ps[j] in u.params;
      IndexOfPrefix(ps[j].0, '=', ps[j].1);
      assert parts[j][|ps[j].0|] == '=' && parts[j][..|ps[j].0|] == ps[j].0;
    }
    forall j | 2 <= j < |parts| ensures ps[j].0 != "address" && ps[j].0 != "port" {
      assert ps[j] in u.params;
    }
    AllParamsWellFormed(u);
  }

  /** An accepted text is printed as it was exactly when it is in printed form. */
  lemma PrintedAsIs(s: string)
    ensures ParseUrl(s).Ok? && PrintUrl(ParseUrl(s).value) == s <==> InPrintedForm(s)
  {
    hide ParseUrl, PrintUrl, InPrintedForm, Printable;
    if InPrintedForm(s) {
      PrintedReparses(s);
    }
    if ParseUrl(s).Ok? && PrintUrl(ParseUrl(s).value) == s {
      ParsedIsPrintable(s);
      PrintedHasForm(ParseUrl(s).value);
    }
  }

  // ---- printing adds no characters of its own beyond the syntax ----

  ghost predicate ParamsLack(params: Entries<string, string>, c: char) {
    forall e :: e in params ==> c !in e.0 && c !in e.1
  }

  lemma {:induction false} SplitLacks(s: string, sep: char, c: char)
    requires c !in s
    ensures NoneContains(Split(s, sep), c)
  {
    if s == [] {
    } else {
      SplitLacks(s[1..], sep, c);
    }
  }

  lemma {:induction false} JoinLacks(parts: seq<string>, sep: char, c: char)
    requires NoneContains(parts, c) && c != sep
    ensures c !in Join(parts, sep)
  {
    if |parts| > 1 {
      JoinLacks(parts[1..], sep, c);
    }
  }

  lemma {:induction false} ParseParamsLack(parts: seq<string>, c: char)
    requires NoneContains(parts, c) && ParseParams(parts).Ok?
    ensures ParamsLack(ParseParams(parts).value, c)
  {
    if parts == [] {
    } else {
      var init, last := parts[..|parts| - 1], parts[|parts| - 1];
      ParseParamsLack(init, c);
      var params, p := ParseParams(init).value, ParseParam(last).value;
      assert forall e :: e in Put(params, p.0, p.1) ==> e == p || e in params;
    }
  }

  /** Control characters are in none of the fixed parts of a URL. */
  lemma PrintLacks(u: StationURL, c: char)
    requires c !in u.scheme && c !in u.address && ParamsLack(u.params, c)
    requires c < ' '
    ensures c !in PrintUrl(u)
  {
    var ps := AllParams(u);
    DigitsOnly(u.port, c);
    forall i | 0 <= i < |ps| ensures c !in PrintParam(ps[i]) {
      assert i >= 2 ==> ps[i] in u.params;
    }
    JoinLacks(PrintParams(ps), ';', c);
  }

  lemma FromParamsLack(scheme: string, params: Entries<string, string>, c: char)
    requires ParamsLack(params, c) && c !in scheme && FromParams(scheme, params).Ok?
    ensures var u := FromParams(scheme, params).value;
            c !in u.scheme && c !in u.address && ParamsLack(u.params, c)
  {
    assert params[Find(params, "address")] in params;
    var rest := Delete(params, "address");
    assert forall e :: e in rest ==> e in params;
    assert forall e :: e in Delete(rest, "port") ==> e in rest;
  }

  /** Neither the printer nor the parser invents a control character. */
  lemma ParsedLacks(s: string, c: char)
    requires c !in s && c < ' ' && ParseUrl(s).Ok?
    ensures c !in PrintUrl(ParseUrl(s).value)
  {
    hide FromParams, PrintUrl, Split, ParseParams;
    var end := SchemeEnd(s).value;
    var parts := Split(s[end + 2..], ';');
    SplitLacks(s[end + 2..], ';', c);
    ParseParamsLack(parts, c);
    FromParamsLack(s[..end], ParseParams(parts).value, c);
    PrintLacks(ParseUrl(s).value, c);
  }

  // ---- the parser as a loop ----

  lemma ParseParamsNext(parts: seq<string>, i: nat, params: Entries<string, string>)
    requires i < |parts| && ParseParams(parts[..i]) == Ok(params)
    ensures ParseParams(parts[..i + 1]) ==
            match ParseParam(parts[i]) case Ok(p) => Ok(Put(params, p.0, p.1)) case Err(e) => Err(e)
  {
    assert parts[..i + 1][..i] == parts[..i];
  }

  /** The parser's loop over the parameters. */
  method CollectParams(parts: seq<string>) returns (r: Result<Entries<string, string>>)
    ensures r == ParseParams(parts)
  {
    var params: Entries<string, string> := [];
    for i := 0 to |parts|
      invariant ParseParams(parts[..i]) == Ok(params)
    {
      var eq := IndexOf(parts[i], '=');
      ParseParamsNext(parts, i, params);
      if eq == |parts[i]| {
        ParseParamsFails(parts, i + 1);
        return Err(StreamError);
      }
      params := Put(params, parts[i][..eq], parts[i][eq + 1..]);
    }
    assert parts[..|parts|] == parts;
    r := Ok(params);
  }

  method Parse(value: string) returns (r: Result<StationURL>)
    ensures r == ParseUrl(value)
  {
    hide FromParams, Split;
    var schemeEnd := SchemeEnd(value);
    if schemeEnd.None? {
      return Err(StreamError);
    }
    var params :- CollectParams(Split(value[schemeEnd.value + 2..], ';'));
    r := FromParams(value[..schemeEnd.value], params);
  }

  lemma {:induction false} ParseParamsFails(parts: seq<string>, n: nat)
    requires n <= |parts| && ParseParams(parts[..n]) == Err(StreamError)
    ensures ParseParams(parts) == Err(StreamError)
  {
    if n == |parts| {
      assert parts[..n] == parts;
    } else {
      var init := parts[..|parts| - 1];
      assert init[..n] == parts[..n];
      ParseParamsFails(init, n);
    }
  }

  // ---- properties ----

  type Property = (u32, u32)

  const ARROW := " => "

  function FormatProperty(p: Property): string {
    Digits(p.0) + ARROW + Digits(p.1)
  }

  function FormatProperties(ps: seq<Property>): string {
    Join(seq(|ps|, i requires 0 <= i < |ps| => FormatProperty(ps[i])), ';')
  }

  function ParseU32(s: string): Result<u32> {
    if s != [] && AllDigits(s) && ParseDigits(s) <= 0xffff_ffff then Ok(ParseDigits(s)) else Err(PlainError)
  }

  /** Digits cannot contain a space, so the arrow starts at the first one. */
  function ParseProperty(entry: string): Result<Property> {
    var at := IndexOf(entry, ' ');
    if at + 4 <= |entry| && entry[at..at + 4] == ARROW then
      var id :- ParseU32(entry[..at]);
      var value :- ParseU32(entry[at + 4..]);
      Ok((id, value))
    else Err(PlainError)
  }

  function ParseEntries(entries: seq<string>): Result<seq<Property>> {
    if entries == [] then Ok([]) else
    var first :- ParseProperty(entries[0]);
    var rest :- ParseEntries(entries[1..]);
    Ok([first] + rest)
  }

  function ParseProperties(s: string): Result<seq<Property>> {
    if s == [] then Ok([]) else ParseEntries(Split(s, ';'))
  }

  lemma ParseU32Digits(n: u32)
    ensures ParseU32(Digits(n)) == Ok(n)
  {
    ParseDigitsDigits(n);
  }

  lemma ParsePropertyParts(id: string, value: string)
    requires ' ' !in id
    ensures var s := id + ARROW + value;
            IndexOf(s, ' ') == |id| && s[|id|..|id| + 4] == ARROW && s[..|id|] == id && s[|id| + 4..] == value
  {
    assert id + ARROW + value == id + [' '] + ("=> " + value);
    IndexOfPrefix(id, ' ', "=> " + value);
  }

  lemma ParseFormatProperty(p: Property)
    ensures ParseProperty(FormatProperty(p)) == Ok(p)
    ensures ';' !in FormatProperty(p) && FormatProperty(p) != []
  {
    DigitsOnly(p.0, ' ');
    DigitsOnly(p.0, ';');
    DigitsOnly(p.1, ';');
    ParsePropertyParts(Digits(p.0), Digits(p.1));
    ParseU32Digits(p.0);
    ParseU32Digits(p.1);
  }

  lemma {:induction false} ParseEntriesFormat(ps: seq<Property>, entries: seq<string>)
    requires |entries| == |ps| && forall i :: 0 <= i < |ps| ==> entries[i] == FormatProperty(ps[i])
    ensures ParseEntries(entries) == Ok(ps)
  {
    if ps == [] {
    } else {
      ParseFormatProperty(ps[0]);
      ParseEntriesFormat(ps[1..], entries[1..]);
      assert ps == [ps[0]] + ps[1..];
    }
  }

  lemma JoinNonEmpty(parts: seq<string>, sep: char)
    requires parts != [] && parts[0] != []
    ensures Join(parts, sep) != []
  {}

  /** Stored properties read back as they were written, for every list. */
  lemma ParseFormatProperties(ps: seq<Property>)
    ensures ParseProperties(FormatProperties(ps)) == Ok(ps)
  {
    if ps != [] {
      var entries := seq(|ps|, i requires 0 <= i < |ps| => FormatProperty(ps[i]));
      forall i | 0 <= i < |ps| ensures ';' !in entries[i] {
        ParseFormatProperty(ps[i]);
      }
      SplitJoin(entries, ';');
      ParseFormatProperty(ps[0]);
      JoinNonEmpty(entries, ';');
      ParseEntriesFormat(ps, entries);
    }
  }
}
