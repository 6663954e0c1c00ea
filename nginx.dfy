/// The built-in pattern of `NginxLogParser`, the NCSA Common / Combined
/// access-log layout
///
///   ip ident user [time] "method url protocol" status size[ "referrer" "user_agent"]
///
/// written out as a matcher that makes the choices Python's backtracking
/// `re.match` makes for that pattern.  `\S+` tokens followed by a space are
/// forced to the whole run of non-whitespace characters; the protocol is the
/// run before `" ` less its closing quote; the three lazy groups `(.*?)` (time,
/// referrer and user agent) take the shortest text for which the rest of the
/// pattern matches; `.` never takes a newline; `$` holds at the end of the line or
/// just before a final newline.
module Nginx {
  import opened Text
  import opened Records
  import opened Parser

  // ---------------------------------------------------------------- grammar

  datatype Trailer = NoTrailer | Trailer(referrer: string, userAgent: string)

  /** What follows the bracketed time. */
  datatype Tail = Tail(httpMethod: string, url: string, protocol: string, status: string, size: string, trailer: Trailer)

  /** One decomposition of a line into the pattern's parts; `ident` and
      `authUser` are matched but not captured. */
  datatype Entry = Entry(ip: string, ident: string, authUser: string, time: string, tail: Tail)

  predicate IsDigit(c: char) {
    '0' <= c <= '9'
  }

  /** `\d{3}` */
  predicate IsStatus(s: string) {
    |s| == 3 && IsDigit(s[0]) && IsDigit(s[1]) && IsDigit(s[2])
  }

  predicate WellFormedTrailer(t: Trailer) {
    t.Trailer? ==> NoNewline(t.referrer) && NoNewline(t.userAgent)
  }

  predicate WellFormedTail(t: Tail) {
    && IsToken(t.httpMethod) && IsToken(t.url) && IsToken(t.protocol)
    && IsStatus(t.status) && IsToken(t.size) && WellFormedTrailer(t.trailer)
  }

  predicate WellFormed(e: Entry) {
    IsToken(e.ip) && IsToken(e.ident) && IsToken(e.authUser) && NoNewline(e.time) && WellFormedTail(e.tail)
  }

  /** What `$` lets stand at the end of a match: nothing, or one final newline. */
  predicate AtEnd(s: string) {
    s == "" || s == "\n"
  }

  function TrailerText(t: Trailer, end: string): string {
    match t
    case NoTrailer => end
    case Trailer(referrer, userAgent) => " \"" + (referrer + ("\" \"" + (userAgent + ("\"" + end))))
  }

  function TailText(t: Tail, end: string): string {
    "] \"" + (t.httpMethod + " " + (t.url + " " + (t.protocol + "\" " + (t.status + " " + (t.size + TrailerText(t.trailer, end))))))
  }

  /** The line written from a decomposition; `end` is what `$` lets through. */
  function LineText(e: Entry, end: string): string {
    e.ip + " " + (e.ident + " " + (e.authUser + " " + ("[" + (e.time + TailText(e.tail, end)))))
  }

  // ---------------------------------------------------------------- matcher

  /** The greedy `\S+`: the length of the run of non-whitespace characters
      at the start of `s`. */
  function RunLength(s: string): (n: nat)
    ensures n <= |s|
    ensures forall i :: 0 <= i < n ==> !IsSpace(s[i])
    ensures n < |s| ==> IsSpace(s[n])
  {
    if s == [] || IsSpace(s[0]) then 0 else 1 + RunLength(s[1..])
  }

  lemma RunLengthOfToken(a: string, b: string)
    requires IsToken(a) && (b == [] || IsSpace(b[0]))
    ensures RunLength(a + b) == |a|
  {
    assert forall i :: 0 <= i < |a| ==> (a + b)[i] == a[i];
    assert b != [] ==> (a + b)[|a|] == b[0];
  }

  /** `\S+ ` */
  function TokenThenSpace(s: string): (r: Option<(string, string)>)
    ensures r.Some? ==> IsToken(r.value.0) && s == r.value.0 + " " + r.value.1
  {
    var n := RunLength(s);
    if 0 < n < |s| && s[n] == ' ' then
      assert s == s[..n] + " " + s[n + 1..];
      Some((s[..n], s[n + 1..]))
    else None
  }

  lemma TokenThenSpaceOf(a: string, b: string)
    requires IsToken(a)
    ensures TokenThenSpace(a + " " + b) == Some((a, b))
  {
    RunLengthOfToken(a, " " + b);
    assert a + " " + b == a + (" " + b);
  }

  /** `\S+" `: the run of non-whitespace ends with the closing quote. */
  function TokenThenQuoteSpace(s: string): (r: Option<(string, string)>)
    ensures r.Some? ==> IsToken(r.value.0) && s == r.value.0 + "\" " + r.value.1
  {
    var n := RunLength(s);
    if 2 <= n < |s| && s[n - 1] == '"' && s[n] == ' ' then
      assert s == s[..n - 1] + "\" " + s[n + 1..];
      Some((s[..n - 1], s[n + 1..]))
    else None
  }

  lemma TokenThenQuoteSpaceOf(a: string, b: string)
    requires IsToken(a)
    ensures TokenThenQuoteSpace(a + "\" " + b) == Some((a, b))
  {
    var s := a + "\" " + b;
    assert IsToken(a + "\"");
    RunLengthOfToken(a + "\"", " " + b);
    assert s == (a + "\"") + (" " + b);
    assert s[|a|] == '"' && s[|a| + 1] == ' ';
    assert s[..|a|] == a && s[|a| + 2..] == b;
  }

  /** `\d{3} ` */
  function StatusThenSpace(s: string): (r: Option<(string, string)>)
    ensures r.Some? ==> IsStatus(r.value.0) && s == r.value.0 + " " + r.value.1
  {
    if |s| >= 4 && IsStatus(s[..3]) && s[3] == ' ' then
      assert s == s[..3] + " " + s[4..];
      Some((s[..3], s[4..]))
    else None
  }

  lemma StatusThenSpaceOf(a: string, b: string)
    requires IsStatus(a)
    ensures StatusThenSpace(a + " " + b) == Some((a, b))
  {
    var s := a + " " + b;
    assert s[..3] == a;
  }

  /** `(.*?)` followed by the rest of the pattern, `cont`: the capture starts
      empty and `.` takes one more character (never a newline) each time the
      rest fails to match. */
  function Lazy<T>(s: string, k: nat, cont: string -> Option<T>): (r: Option<(string, T)>)
    requires k <= |s| && NoNewline(s[..k])
    ensures r.Some? ==> k <= |r.value.0| <= |s| && r.value.0 == s[..|r.value.0|] && NoNewline(r.value.0)
    decreases |s| - k
  {
    match cont(s[k..])
    case Some(v) => Some((s[..k], v))
    case None =>
      if k < |s| && s[k] != '\n' then
        assert s[..k + 1] == s[..k] + [s[k]];
        Lazy(s, k + 1, cont)
      else None
  }

  /** The lazy group stops at the first capture for which the rest of the
      pattern matches, and its value is what the rest matched. */
  lemma {:induction false} LazySound<T>(s: string, k: nat, cont: string -> Option<T>)
    requires k <= |s| && NoNewline(s[..k]) && Lazy(s, k, cont).Some?
    ensures cont(s[|Lazy(s, k, cont).value.0|..]) == Some(Lazy(s, k, cont).value.1)
    ensures forall i :: k <= i < |Lazy(s, k, cont).value.0| ==> cont(s[i..]).None?
    decreases |s| - k
  {
    if cont(s[k..]).None? {
      assert s[..k + 1] == s[..k] + [s[k]];
      LazySound(s, k + 1, cont);
    }
  }

  /** The lazy group finds a capture whenever one exists, and takes one no
      longer than any that works. */
  lemma {:induction false} LazyFindsShortest<T>(s: string, k: nat, cont: string -> Option<T>, j: nat)
    requires k <= j <= |s| && NoNewline(s[..j]) && cont(s[j..]).Some?
    ensures NoNewline(s[..k])
    ensures Lazy(s, k, cont).Some? && |Lazy(s, k, cont).value.0| <= j
    decreases j - k
  {
    assert s[..k] == s[..j][..k];
    if cont(s[k..]).None? {
      assert k < j;
      assert s[k] == s[..j][k];
      LazyFindsShortest(s, k + 1, cont, j);
    }
  }

  /** When the rest fails for every shorter capture, the lazy group takes
      exactly the capture that works. */
  lemma {:induction false} LazyTakesFirst<T>(s: string, k: nat, cont: string -> Option<T>, j: nat)
    requires k <= j <= |s| && NoNewline(s[..j]) && cont(s[j..]).Some?
    requires forall i :: k <= i < j ==> cont(s[i..]).None?
    ensures NoNewline(s[..k])
    ensures Lazy(s, k, cont) == Some((s[..j], cont(s[j..]).value))
  {
    LazyFindsShortest(s, k, cont, j);
    LazySound(s, k, cont);
  }

  /** `"$` */
  function ClosingQuote(s: string): (r: Option<()>)
    ensures r.Some? <==> s == "\"" || s == "\"\n"
  {
    if |s| >= 1 && s[0] == '"' && AtEnd(s[1..]) then Some(()) else None
  }

  /** `" "(?P<user_agent>.*?)"$` */
  function AfterReferrer(s: string): Option<string> {
    if StartsWith(s, "\" \"") then
      match Lazy(s[3..], 0, ClosingQuote)
      case Some((userAgent, _)) => Some(userAgent)
      case None => None
    else None
  }

  /** The optional group ` "(?P<referrer>.*?)" "(?P<user_agent>.*?)"`,
      tried with the `$` after it. */
  function TrailerGroup(s: string): Option<Trailer> {
    if StartsWith(s, " \"") then
      match Lazy(s[2..], 0, AfterReferrer)
      case Some((referrer, userAgent)) => Some(Trailer(referrer, userAgent))
      case None => None
    else None
  }

  /** `(?P<size>\S+)(?: ...)?$`: the greedy `?` tries the group first. */
  function SizeAndTrailer(s: string): Option<(string, Trailer)> {
    var n := RunLength(s);
    if n == 0 then None
    else match TrailerGroup(s[n..])
      case Some(t) => Some((s[..n], t))
      case None => if AtEnd(s[n..]) then Some((s[..n], NoTrailer)) else None
  }

  /** `(?P<status>\d{3}) (?P<size>\S+)(?: ...)?$` */
  function StatusSizeTrailer(s: string): Option<(string, string, Trailer)> {
    match StatusThenSpace(s)
    case None => None
    case Some((status, r)) =>
      match SizeAndTrailer(r)
      case None => None
      case Some((size, trailer)) => Some((status, size, trailer))
  }

  /** `\] "(?P<method>\S+) (?P<url>\S+) (?P<protocol>\S+)" `: the request
      and what follows it. */
  function Request(s: string): Option<(string, string, string, string)> {
    if !StartsWith(s, "] \"") then None
    else match TokenThenSpace(s[3..])
      case None => None
      case Some((httpMethod, r1)) =>
        match TokenThenSpace(r1)
        case None => None
        case Some((url, r2)) =>
          match TokenThenQuoteSpace(r2)
          case None => None
          case Some((protocol, r3)) => Some((httpMethod, url, protocol, r3))
  }

  /** Everything after the lazy time group: `\] "method url protocol" status size...$`. */
  function AfterTime(s: string): Option<Tail> {
    match Request(s)
    case None => None
    case Some((httpMethod, url, protocol, r3)) =>
      match StatusSizeTrailer(r3)
      case None => None
      case Some((status, size, trailer)) => Some(Tail(httpMethod, url, protocol, status, size, trailer))
  }

  /** `^(?P<ip>\S+) \S+ \S+ `: the three leading tokens and what follows. */
  function Idents(line: string): Option<(string, string, string, string)> {
    match TokenThenSpace(line)
    case None => None
    case Some((ip, r1)) =>
      match TokenThenSpace(r1)
      case None => None
      case Some((ident, r2)) =>
        match TokenThenSpace(r2)
        case None => None
        case Some((authUser, r3)) => Some((ip, ident, authUser, r3))
  }

  /** The whole pattern, anchored by `^` at the start of the line. */
  function MatchEntry(line: string): Option<Entry> {
    match Idents(line)
    case None => None
    case Some((ip, ident, authUser, r3)) =>
      if !StartsWith(r3, "[") then None
      else match Lazy(r3[1..], 0, AfterTime)
        case None => None
        case Some((time, tail)) => Some(Entry(ip, ident, authUser, time, tail))
  }

  // ----------------------------------------------------- matcher is complete

  /** The referrer holds no double quote, so the lazy referrer group cannot
      stop early. */
  predicate PlainReferrer(t: Trailer) {
    t.Trailer? ==> '"' !in t.referrer
  }

  lemma AfterReferrerOf(userAgent: string, end: string)
    requires NoNewline(userAgent) && AtEnd(end)
    ensures AfterReferrer("\" \"" + (userAgent + ("\"" + end))) == Some(userAgent)
  {
    var s := "\" \"" + (userAgent + ("\"" + end));
    var t := s[3..];
    assert t == userAgent + ("\"" + end);
    assert t[..|userAgent|] == userAgent;
    assert t[|userAgent|..] == "\"" + end;
    forall i | 0 <= i < |userAgent|
      ensures ClosingQuote(t[i..]).None?
    {
      assert |t[i..]| >= 2;
      assert t[i..][|t[i..]| - 1] == t[|t| - 1];
    }
    LazyTakesFirst(t, 0, ClosingQuote, |userAgent|);
  }

  lemma AfterReferrerNeedsQuote(s: string)
    requires s == [] || s[0] != '"'
    ensures AfterReferrer(s).None?
  {
    if |s| >= 3 {
      assert s[..3][0] == s[0];
    }
    assert !StartsWith(s, "\" \"");
  }

  lemma AfterTimeNeedsBracket(s: string)
    requires s == [] || s[0] != ']'
    ensures AfterTime(s).None?
  {
    if |s| >= 3 {
      assert s[..3][0] == s[0];
    }
    assert !StartsWith(s, "] \"");
  }

  lemma TrailerGroupOf(t: Trailer, end: string)
    requires t.Trailer? && WellFormedTrailer(t) && AtEnd(end)
    ensures TrailerGroup(TrailerText(t, end)).Some?
    ensures PlainReferrer(t) ==> TrailerGroup(TrailerText(t, end)) == Some(t)
  {
    var rest := "\" \"" + (t.userAgent + ("\"" + end));
    var s := TrailerText(t, end);
    var u := s[2..];
    assert u == t.referrer + rest;
    assert u[..|t.referrer|] == t.referrer && u[|t.referrer|..] == rest;
    AfterReferrerOf(t.userAgent, end);
    LazyFindsShortest(u, 0, AfterReferrer, |t.referrer|);
    if PlainReferrer(t) {
      forall i | 0 <= i < |t.referrer|
        ensures AfterReferrer(u[i..]).None?
      {
        assert u[i..][0] == t.referrer[i];
        AfterReferrerNeedsQuote(u[i..]);
      }
      LazyTakesFirst(u, 0, AfterReferrer, |t.referrer|);
    }
  }

  lemma SizeAndTrailerOf(size: string, t: Trailer, end: string)
    requires IsToken(size) && WellFormedTrailer(t) && AtEnd(end)
    ensures SizeAndTrailer(size + TrailerText(t, end)).Some?
    ensures SizeAndTrailer(size + TrailerText(t, end)).value.0 == size
    ensures PlainReferrer(t) ==> SizeAndTrailer(size + TrailerText(t, end)) == Some((size, t))
  {
    var s := size + TrailerText(t, end);
    RunLengthOfToken(size, TrailerText(t, end));
    assert s[..|size|] == size && s[|size|..] == TrailerText(t, end);
    if t.Trailer? {
      TrailerGroupOf(t, end);
    }
  }

  lemma RequestOf(httpMethod: string, url: string, protocol: string, r3: string)
    requires IsToken(httpMethod) && IsToken(url) && IsToken(protocol)
    ensures Request("] \"" + (httpMethod + " " + (url + " " + (protocol + "\" " + r3))))
      == Some((httpMethod, url, protocol, r3))
  {
    var r2 := protocol + "\" " + r3;
    var r1 := url + " " + r2;
    var r0 := httpMethod + " " + r1;
    var s := "] \"" + r0;
    assert s[3..] == r0;
    TokenThenSpaceOf(httpMethod, r1);
    TokenThenSpaceOf(url, r2);
    TokenThenQuoteSpaceOf(protocol, r3);
  }

  lemma AfterTimeOf(t: Tail, end: string)
    requires WellFormedTail(t) && AtEnd(end)
    ensures AfterTime(TailText(t, end)).Some?
    ensures PlainReferrer(t.trailer) ==> AfterTime(TailText(t, end)) == Some(t)
  {
    var r4 := t.size + TrailerText(t.trailer, end);
    var r3 := t.status + " " + r4;
    RequestOf(t.httpMethod, t.url, t.protocol, r3);
    StatusThenSpaceOf(t.status, r4);
    SizeAndTrailerOf(t.size, t.trailer, end);
    assert StatusSizeTrailer(r3).Some? && StatusSizeTrailer(r3).value.0 == t.status;
  }

  /** The three leading `\S+ ` tokens are read back as written. */
  lemma IdentsOf(ip: string, ident: string, authUser: string, r3: string)
    requires IsToken(ip) && IsToken(ident) && IsToken(authUser)
    ensures Idents(ip + " " + (ident + " " + (authUser + " " + r3))) == Some((ip, ident, authUser, r3))
  {
    var r2 := authUser + " " + r3;
    var r1 := ident + " " + r2;
    TokenThenSpaceOf(ip, r1);
    TokenThenSpaceOf(ident, r2);
    TokenThenSpaceOf(authUser, r3);
  }

  /** Every line written from a decomposition matches: the match agrees on
      the fields before the time, and its time is no longer than the
      decomposition's (the lazy group takes the shortest that works). */
  lemma MatchFindsEveryEntry(e: Entry, end: string)
    requires WellFormed(e) && AtEnd(end)
    ensures var m := MatchEntry(LineText(e, end));
      && m.Some?
      && m.value.ip == e.ip && m.value.ident == e.ident && m.value.authUser == e.authUser
      && |m.value.time| <= |e.time|
  {
    var tail := TailText(e.tail, end);
    var r3 := "[" + (e.time + tail);
    IdentsOf(e.ip, e.ident, e.authUser, r3);
    var u := r3[1..];
    assert u == e.time + tail;
    assert u[..|e.time|] == e.time && u[|e.time|..] == tail;
    AfterTimeOf(e.tail, end);
    LazyFindsShortest(u, 0, AfterTime, |e.time|);
  }

  /** With no `]` in the time, the lazy time group cannot stop early. */
  lemma TimeGroupOf(time: string, t: Tail, end: string)
    requires NoNewline(time) && ']' !in time
    requires WellFormedTail(t) && AtEnd(end) && PlainReferrer(t.trailer)
    ensures Lazy(time + TailText(t, end), 0, AfterTime) == Some((time, t))
  {
    var tail := TailText(t, end);
    var u := time + tail;
    assert u[..|time|] == time && u[|time|..] == tail;
    AfterTimeOf(t, end);
    forall i | 0 <= i < |time|
      ensures AfterTime(u[i..]).None?
    {
      assert u[i..][0] == time[i];
      AfterTimeNeedsBracket(u[i..]);
    }
    LazyTakesFirst(u, 0, AfterTime, |time|);
  }

  /** A line written from a decomposition whose time holds no `]` and whose
      referrer holds no `"` is read back as exactly that decomposition. */
  lemma MatchReadsBackEntry(e: Entry, end: string)
    requires WellFormed(e) && AtEnd(end)
    requires ']' !in e.time && PlainReferrer(e.tail.trailer)
    ensures MatchEntry(LineText(e, end)) == Some(e)
  {
    var r3 := "[" + (e.time + TailText(e.tail, end));
    IdentsOf(e.ip, e.ident, e.authUser, r3);
    assert r3[1..] == e.time + TailText(e.tail, end);
    TimeGroupOf(e.time, e.tail, end);
  }

  // -------------------------------------------------------- matcher is sound

  /** The final newline of `s`, if it has one. */
  function EndOf(s: string): string {
    if s != [] && s[|s| - 1] == '\n' then "\n" else ""
  }

  lemma AfterReferrerSound(s: string)
    requires AfterReferrer(s).Some?
    ensures NoNewline(AfterReferrer(s).value)
    ensures s == "\" \"" + (AfterReferrer(s).value + ("\"" + EndOf(s)))
  {
    var z := s[3..];
    var userAgent := AfterReferrer(s).value;
    LazySound(z, 0, ClosingQuote);
    var q := z[|userAgent|..];
    assert q == "\"" || q == "\"\n";
    assert z == userAgent + q;
    assert s == "\" \"" + z;
    assert s[|s| - 1] == q[|q| - 1];
  }

  lemma TrailerGroupSound(s: string)
    requires TrailerGroup(s).Some?
    ensures TrailerGroup(s).value.Trailer? && WellFormedTrailer(TrailerGroup(s).value)
    ensures s == TrailerText(TrailerGroup(s).value, EndOf(s))
  {
    var z := s[2..];
    assert s == " \"" + z;
    LazySound(z, 0, AfterReferrer);
    var t := TrailerGroup(s).value;
    var q := z[|t.referrer|..];
    assert z == t.referrer + q;
    AfterReferrerSound(q);
    EndOfAppend(t.referrer, q);
    EndOfAppend(" \"", z);
  }

  lemma EndOfToken(a: string)
    requires IsToken(a)
    ensures EndOf(a) == ""
  {
    assert !IsSpace(a[|a| - 1]);
  }

  lemma SizeAndTrailerSound(s: string)
    requires SizeAndTrailer(s).Some?
    ensures IsToken(SizeAndTrailer(s).value.0) && WellFormedTrailer(SizeAndTrailer(s).value.1)
    ensures s == SizeAndTrailer(s).value.0 + TrailerText(SizeAndTrailer(s).value.1, EndOf(s))
  {
    var n := RunLength(s);
    var size := s[..n];
    assert IsToken(size);
    var q := s[n..];
    assert s == size + q;
    if TrailerGroup(q).Some? {
      TrailerGroupSound(q);
      EndOfAppend(size, q);
    } else if q == [] {
      EndOfToken(size);
    } else {
      EndOfAppend(size, q);
    }
  }

  lemma EndOfAppend(a: string, b: string)
    requires b != []
    ensures EndOf(a + b) == EndOf(b)
  {
    assert (a + b)[|a + b| - 1] == b[|b| - 1];
  }

  lemma StatusSizeTrailerSound(s: string)
    requires StatusSizeTrailer(s).Some?
    ensures var (status, size, trailer) := StatusSizeTrailer(s).value;
      && IsStatus(status) && IsToken(size) && WellFormedTrailer(trailer)
      && s == status + " " + (size + TrailerText(trailer, EndOf(s)))
  {
    var m := StatusThenSpace(s).value;
    SizeAndTrailerSound(m.1);
    EndOfAppend(m.0 + " ", m.1);
  }

  /** A final newline is never hidden behind a space. */
  lemma EndOfAfterSpace(a: string, b: string)
    requires a != [] && a[|a| - 1] == ' '
    ensures EndOf(a + b) == EndOf(b)
  {
    if b != [] {
      EndOfAppend(a, b);
    } else {
      assert a + b == a;
    }
  }

  lemma RequestSound(s: string)
    requires Request(s).Some?
    ensures var (httpMethod, url, protocol, r3) := Request(s).value;
      && IsToken(httpMethod) && IsToken(url) && IsToken(protocol)
      && s == "] \"" + (httpMethod + " " + (url + " " + (protocol + "\" " + r3)))
  {
    assert s == "] \"" + s[3..];
  }

  lemma RequestEnd(s: string)
    requires Request(s).Some?
    ensures EndOf(s) == EndOf(Request(s).value.3)
  {
    var r0 := s[3..];
    assert s == "] \"" + r0;
    var m1 := TokenThenSpace(r0).value;
    var m2 := TokenThenSpace(m1.1).value;
    var m3 := TokenThenQuoteSpace(m2.1).value;
    EndOfAfterSpace(m3.0 + "\" ", m3.1);
    EndOfAfterSpace(m2.0 + " ", m2.1);
    EndOfAfterSpace(m1.0 + " ", m1.1);
    EndOfAppend("] \"", r0);
  }

  lemma AfterTimeSound(s: string)
    requires AfterTime(s).Some?
    ensures WellFormedTail(AfterTime(s).value)
    ensures s == TailText(AfterTime(s).value, EndOf(s))
  {
    RequestSound(s);
    RequestEnd(s);
    StatusSizeTrailerSound(Request(s).value.3);
  }

  lemma IdentsSound(line: string)
    requires Idents(line).Some?
    ensures var (ip, ident, authUser, r3) := Idents(line).value;
      && IsToken(ip) && IsToken(ident) && IsToken(authUser)
      && line == ip + " " + (ident + " " + (authUser + " " + r3))
  {
  }

  lemma IdentsEnd(line: string)
    requires Idents(line).Some?
    ensures EndOf(line) == EndOf(Idents(line).value.3)
  {
    var m1 := TokenThenSpace(line).value;
    var m2 := TokenThenSpace(m1.1).value;
    var m3 := TokenThenSpace(m2.1).value;
    EndOfAfterSpace(m3.0 + " ", m3.1);
    EndOfAfterSpace(m2.0 + " ", m2.1);
    EndOfAfterSpace(m1.0 + " ", m1.1);
  }

  /** Whatever the matcher returns is a decomposition of the whole line:
      the line is written from it, up to the final newline `$` allows. */
  lemma MatchEntrySound(line: string)
    requires MatchEntry(line).Some?
    ensures WellFormed(MatchEntry(line).value)
    ensures line == LineText(MatchEntry(line).value, EndOf(line))
  {
    var e := MatchEntry(line).value;
    IdentsSound(line);
    IdentsEnd(line);
    var r3 := Idents(line).value.3;
    var u := r3[1..];
    assert r3 == "[" + u;
    LazySound(u, 0, AfterTime);
    var q := u[|e.time|..];
    assert AfterTime(q) == Some(e.tail);
    AfterTimeSound(q);
    assert u == e.time + q;
    EndOfAppend(e.time, q);
    EndOfAppend("[", u);
  }

  // ------------------------------------------------------ NginxLogParser

  /** The named groups of the pattern, in the order they appear. */
  const NginxGroups: seq<string> := ["ip", "time", "method", "url", "protocol", "status", "size", "referrer", "user_agent"]

  /** The text of every named group; the two trailer groups do not take part
      in a match without the trailer. */
  function Captures(e: Entry): seq<Value> {
    [Some(e.ip), Some(e.time), Some(e.tail.httpMethod), Some(e.tail.url), Some(e.tail.protocol),
     Some(e.tail.status), Some(e.tail.size)]
    + match e.tail.trailer
      case NoTrailer => [None, None]
      case Trailer(referrer, userAgent) => [Some(referrer), Some(userAgent)]
  }

  function NginxMatcher(line: string): Option<seq<Value>> {
    match MatchEntry(line)
    case None => None
    case Some(e) => Some(Captures(e))
  }

  /** `NginxLogParser()`: a `RegexLogParser` over the built-in pattern. */
  const NginxPattern: Pattern := Pattern(NginxGroups, NginxMatcher)

  function Referrer(t: Trailer): Value {
    if t.Trailer? then Some(t.referrer) else None
  }

  function UserAgent(t: Trailer): Value {
    if t.Trailer? then Some(t.userAgent) else None
  }

  /** The dict `parse_line` returns for a line split as `e`. */
  function EntryRecord(e: Entry): Record {
    [Field("ip", Some(e.ip)), Field("time", Some(e.time)), Field("method", Some(e.tail.httpMethod)),
     Field("url", Some(e.tail.url)), Field("protocol", Some(e.tail.protocol)), Field("status", Some(e.tail.status)),
     Field("size", Some(e.tail.size)), Field("referrer", Referrer(e.tail.trailer)),
     Field("user_agent", UserAgent(e.tail.trailer))]
  }

  lemma GroupDictOfEntry(e: Entry)
    ensures GroupDict(NginxGroups, Captures(e)) == EntryRecord(e)
  {
    var r := GroupDict(NginxGroups, Captures(e));
    assert |r| == 9;
    assert r[7].value == Referrer(e.tail.trailer);
    assert r[8].value == UserAgent(e.tail.trailer);
  }

  /** `parse_line` with the built-in pattern: `None` when the line does not
      match, otherwise the record of the split the matcher chose. */
  lemma NginxLineRecord(line: string)
    ensures ParseLine(NginxPattern, line) ==
      if MatchEntry(line).Some? then Some(EntryRecord(MatchEntry(line).value)) else None
  {
    if MatchEntry(line).Some? {
      GroupDictOfEntry(MatchEntry(line).value);
    }
  }

  /** An access-log line is parsed exactly when it can be split into the
      layout's parts, the whole line being used up (the pattern has `^` and
      `$`, and only a final newline may be left over). */
  lemma NginxParsesExactlyTheLayout(line: string)
    ensures ParseLine(NginxPattern, line).Some? <==>
      exists e: Entry, end: string :: WellFormed(e) && AtEnd(end) && line == LineText(e, end)
  {
    if MatchEntry(line).Some? {
      MatchEntrySound(line);
      var e := MatchEntry(line).value;
      assert WellFormed(e) && AtEnd(EndOf(line)) && line == LineText(e, EndOf(line));
    }
    if exists e: Entry, end: string :: WellFormed(e) && AtEnd(end) && line == LineText(e, end) {
      var e: Entry, end: string :| WellFormed(e) && AtEnd(end) && line == LineText(e, end);
      MatchFindsEveryEntry(e, end);
    }
  }

  /** Every record the built-in pattern yields is the record of a split of
      the whole line into the layout's parts: `ip`, `method`, `url`,
      `protocol` and `size` are tokens without whitespace, `status` is three
      digits, and the line is written back from them. */
  lemma NginxRecordOfSplit(line: string)
    requires ParseLine(NginxPattern, line).Some?
    ensures exists e :: && WellFormed(e) && line == LineText(e, EndOf(line))
                        && ParseLine(NginxPattern, line) == Some(EntryRecord(e))
  {
    NginxLineRecord(line);
    MatchEntrySound(line);
  }

  /** The record of a split always has the nine keys in group order, the
      first seven captured, and `referrer` and `user_agent` either both
      captured or both `None`. */
  lemma EntryRecordShape(e: Entry)
    ensures Keys(EntryRecord(e)) == NginxGroups
    ensures forall i :: 0 <= i < 7 ==> EntryRecord(e)[i].value.Some?
    ensures EntryRecord(e)[7].value.None? <==> EntryRecord(e)[8].value.None?
    ensures EntryRecord(e)[7].value.None? <==> e.tail.trailer.NoTrailer?
  {
  }

  /** A line written from a split whose time holds no `]` and whose
      referrer holds no `"` is parsed into exactly the split's fields. */
  lemma NginxReadsBack(e: Entry, end: string)
    requires WellFormed(e) && AtEnd(end)
    requires ']' !in e.time && PlainReferrer(e.tail.trailer)
    ensures ParseLine(NginxPattern, LineText(e, end)) == Some(EntryRecord(e))
  {
    MatchReadsBackEntry(e, end);
    NginxLineRecord(LineText(e, end));
  }

  /** A line is rejected when what follows its first three tokens does not
      open the bracketed time, as with free text. */
  lemma NginxRejectsWithoutBracket(ip: string, ident: string, authUser: string, rest: string)
    requires IsToken(ip) && IsToken(ident) && IsToken(authUser)
    requires rest == [] || rest[0] != '['
    ensures ParseLine(NginxPattern, ip + " " + (ident + " " + (authUser + " " + rest))) == None
  {
    IdentsOf(ip, ident, authUser, rest);
    if |rest| >= 1 {
      assert rest[..1][0] == rest[0];
    }
    assert !StartsWith(rest, "[");
    NginxLineRecord(ip + " " + (ident + " " + (authUser + " " + rest)));
  }

  // ------------------------------------------------------ concrete lines

  lemma CommonLogTailWellFormed()
    ensures WellFormedTail(Tail("GET", "/apache_pb.gif", "HTTP/1.0", "200", "2326", NoTrailer))
  {
    assert IsToken("GET");
    assert IsToken("/apache_pb.gif");
    assert IsToken("HTTP/1.0");
    assert IsStatus("200");
    assert IsToken("2326");
  }

  /** The Common Log Format line `127.0.0.1 - - [10/Oct/2000:13:55:36 -0700]
      "GET /apache_pb.gif HTTP/1.0" 200 2326`, written as its parts. */
  lemma CommonLogLine()
    ensures ParseLine(NginxPattern,
        "127.0.0.1" + " " + ("-" + " " + ("-" + " " + ("[" + ("10/Oct/2000:13:55:36 -0700" + ("] \"" + ("GET" + " " +
        ("/apache_pb.gif" + " " + ("HTTP/1.0" + "\" " + ("200" + " " + ("2326" + "")))))))))))
      == Some([Field("ip", Some("127.0.0.1")), Field("time", Some("10/Oct/2000:13:55:36 -0700")),
               Field("method", Some("GET")), Field("url", Some("/apache_pb.gif")), Field("protocol", Some("HTTP/1.0")),
               Field("status", Some("200")), Field("size", Some("2326")),
               Field("referrer", None), Field("user_agent", None)])
  {
    var e := Entry("127.0.0.1", "-", "-", "10/Oct/2000:13:55:36 -0700",
                   Tail("GET", "/apache_pb.gif", "HTTP/1.0", "200", "2326", NoTrailer));
    CommonLogEntryWellFormed();
    NginxReadsBack(e, "");
  }

  lemma CommonLogEntryWellFormed()
    ensures var e := Entry("127.0.0.1", "-", "-", "10/Oct/2000:13:55:36 -0700",
                           Tail("GET", "/apache_pb.gif", "HTTP/1.0", "200", "2326", NoTrailer));
      WellFormed(e) && ']' !in e.time
  {
    CommonLogTailWellFormed();
    CommonLogTimeIsPlain();
    assert IsToken("127.0.0.1");
    assert IsToken("-");
  }

  lemma CommonLogTimeIsPlain()
    ensures NoNewline("10/Oct/2000:13:55:36 -0700") && ']' !in "10/Oct/2000:13:55:36 -0700"
  {
  }

  lemma CombinedLogTailWellFormed()
    ensures WellFormedTail(Tail("POST", "/login", "HTTP/1.1", "401", "128", Trailer("http://example.com/login", "Mozilla/5.0")))
    ensures PlainReferrer(Trailer("http://example.com/login", "Mozilla/5.0"))
  {
    assert IsToken("POST");
    assert IsToken("/login");
    assert IsToken("HTTP/1.1");
    assert IsStatus("401");
    assert IsToken("128");
    CombinedLogTrailerIsPlain();
  }

  lemma CombinedLogTrailerIsPlain()
    ensures NoNewline("http://example.com/login") && NoNewline("Mozilla/5.0") && '"' !in "http://example.com/login"
  {
  }

  lemma CombinedLogEntryWellFormed()
    ensures var e := Entry("192.168.1.1", "-", "admin", "10/Oct/2000:14:02:00 -0700",
                           Tail("POST", "/login", "HTTP/1.1", "401", "128", Trailer("http://example.com/login", "Mozilla/5.0")));
      WellFormed(e) && ']' !in e.time && PlainReferrer(e.tail.trailer)
  {
    CombinedLogTailWellFormed();
    CombinedLogTimeIsPlain();
    assert IsToken("192.168.1.1");
    assert IsToken("-");
    assert IsToken("admin");
  }

  lemma CombinedLogTimeIsPlain()
    ensures NoNewline("10/Oct/2000:14:02:00 -0700") && ']' !in "10/Oct/2000:14:02:00 -0700"
  {
  }

  /** The Combined Log Format line `192.168.1.1 - admin [10/Oct/2000:14:02:00 -0700]
      "POST /login HTTP/1.1" 401 128 "http://example.com/login" "Mozilla/5.0"`, written as its parts. */
  lemma CombinedLogLine()
    ensures ParseLine(NginxPattern,
        "192.168.1.1" + " " + ("-" + " " + ("admin" + " " + ("[" + ("10/Oct/2000:14:02:00 -0700" + ("] \"" + ("POST" + " " + ("/login" + " " +
        ("HTTP/1.1" + "\" " + ("401" + " " + ("128" +
        (" \"" + ("http://example.com/login" + ("\" \"" + ("Mozilla/5.0" + ("\"" + ""))))))))))))))))
      == Some([Field("ip", Some("192.168.1.1")), Field("time", Some("10/Oct/2000:14:02:00 -0700")),
               Field("method", Some("POST")), Field("url", Some("/login")), Field("protocol", Some("HTTP/1.1")),
               Field("status", Some("401")), Field("size", Some("128")),
               Field("referrer", Some("http://example.com/login")), Field("user_agent", Some("Mozilla/5.0"))])
  {
    var e := Entry("192.168.1.1", "-", "admin", "10/Oct/2000:14:02:00 -0700",
                   Tail("POST", "/login", "HTTP/1.1", "401", "128", Trailer("http://example.com/login", "Mozilla/5.0")));
    CombinedLogEntryWellFormed();
    NginxReadsBack(e, "");
  }

  /** `This is not a log line`: the fourth word does not open a bracket. */
  lemma FreeTextIsNotALogLine()
    ensures ParseLine(NginxPattern, "This" + " " + ("is" + " " + ("not" + " " + "a log line"))) == None
  {
    NginxRejectsWithoutBracket("This", "is", "not", "a log line");
  }
}
