/**
 The compressing response writer: it holds the first bytes of the body back until it knows whether
 to compress, then passes everything on either raw or through one gzip stream.
 */
module GzipWriter {
  import opened Common

  newtype byte = b: int | 0 <= b < 256

  const MIN_SIZE := 512

  // ---- Content types ----

  function TrimLeft(s: string): string { if s != "" && IsSpace(s[0]) then TrimLeft(s[1..]) else s }

  function TrimRight(s: string): string { if s != "" && IsSpace(s[|s| - 1]) then TrimRight(s[..|s| - 1]) else s }

  function TrimSpace(s: string): string { TrimRight(TrimLeft(s)) }

  function ToLower(s: string): string {
    if s == "" then ""
    else [if 'A' <= s[0] <= 'Z' then (s[0] as int + 32) as char else s[0]] + ToLower(s[1..])
  }

  /** The part before the first ';', or everything. */
  function BeforeSemicolon(s: string): string {
    if s == "" || s[0] == ';' then "" else [s[0]] + BeforeSemicolon(s[1..])
  }

  function MediaType(contentType: string): string {
    var base := TrimSpace(ToLower(contentType));
    if ';' in base then TrimSpace(BeforeSemicolon(base)) else base
  }

  /** JSON, JavaScript, text and SVG, but never an event stream. */
  predicate Compressible(contentType: string) {
    var base := MediaType(contentType);
    && !("text/event-stream" <= base)
    && ("application/json" <= base || "application/javascript" <= base || "text/" <= base || "image/svg+xml" <= base)
  }

  // ---- What the media type decides ----

  /** `p` stands in `s` at `k`, upper and lower case of ASCII letters not told apart. */
  predicate SpelledAt(s: string, k: nat, p: string) {
    && k + |p| <= |s|
    && forall i :: 0 <= i < |p| ==> s[k + i] == p[i] || ('A' <= s[k + i] <= 'Z' && s[k + i] as int + 32 == p[i] as int)
  }

  /** `p` is the first thing in `s` but for white space. */
  predicate Leads(s: string, p: string) {
    exists k :: 0 <= k <= |s| && (forall i :: 0 <= i < k ==> IsSpace(s[i])) && SpelledAt(s, k, p)
  }

  /** What a prefix of a media type is made of. */
  predicate Plain(p: string) {
    p != "" && forall i :: 0 <= i < |p| ==> !IsSpace(p[i]) && p[i] != ';' && !('A' <= p[i] <= 'Z')
  }

  lemma {:induction false} LowerAt(s: string)
    ensures |ToLower(s)| == |s|
    ensures forall i :: 0 <= i < |s| ==> ToLower(s)[i] == if 'A' <= s[i] <= 'Z' then (s[i] as int + 32) as char else s[i]
  {
    if s != "" { LowerAt(s[1..]); }
  }

  /** Trimming on the left goes to the first character that is no space. */
  lemma {:induction false} TrimLeftDrops(s: string) returns (k: nat)
    ensures k <= |s| && TrimLeft(s) == s[k..] && (forall i :: 0 <= i < k ==> IsSpace(s[i]))
    ensures k < |s| ==> !IsSpace(s[k])
  {
    k := 0;
    if s != "" && IsSpace(s[0]) {
      k := TrimLeftDrops(s[1..]);
      k := k + 1;
    }
  }

  lemma {:induction false} TrimRightKeeps(s: string, p: string)
    requires Plain(p)
    ensures p <= TrimRight(s) <==> p <= s
    ensures TrimRight(s) <= s
  {
    if s != "" && IsSpace(s[|s| - 1]) {
      TrimRightKeeps(s[..|s| - 1], p);
      if p <= s {
        assert p[|p| - 1] == s[|p| - 1] && |p| != |s|;
        assert p <= s[..|s| - 1];
      }
    }
  }

  lemma {:induction false} CutKeeps(s: string, p: string)
    requires forall i :: 0 <= i < |p| ==> p[i] != ';'
    ensures p <= BeforeSemicolon(s) <==> p <= s
    ensures BeforeSemicolon(s) <= s
  {
    if s != "" && s[0] != ';' && p != "" {
      CutKeeps(s[1..], p[1..]);
      assert s == [s[0]] + s[1..] && p == [p[0]] + p[1..];
    } else if s != "" && s[0] != ';' {
      CutKeeps(s[1..], p);
    }
  }

  lemma NoSpaceToTrim(s: string)
    requires s != "" ==> !IsSpace(s[0])
    ensures TrimLeft(s) == s
  {
  }

  /** The media type begins with `p` exactly when the trimmed, lower-cased content type does. */
  lemma MediaTypeBegins(contentType: string, p: string)
    requires Plain(p)
    ensures p <= MediaType(contentType) <==> p <= TrimLeft(ToLower(contentType))
  {
    var lower := ToLower(contentType);
    var k := TrimLeftDrops(lower);
    var base := TrimSpace(lower);
    TrimRightKeeps(TrimLeft(lower), p);
    if ';' in base {
      var cut := BeforeSemicolon(base);
      CutKeeps(base, p);
      NoSpaceToTrim(cut);
      TrimRightKeeps(cut, p);
    }
  }

  lemma SpelledIff(s: string, j: nat, p: string)
    requires Plain(p) && j + |p| <= |s|
    ensures |ToLower(s)| == |s|
    ensures SpelledAt(s, j, p) <==> ToLower(s)[j..j + |p|] == p
  {
    LowerAt(s);
    var part := ToLower(s)[j..j + |p|];
    forall i | 0 <= i < |p|
      ensures part[i] == p[i] <==>
              s[j + i] == p[i] || ('A' <= s[j + i] <= 'Z' && s[j + i] as int + 32 == p[i] as int)
    {
      assert part[i] == ToLower(s)[j + i];
    }
  }

  /** Only the first character that is no space can begin it. */
  lemma LeadsAt(s: string, k: nat, p: string)
    requires Plain(p) && k <= |s| && (forall i :: 0 <= i < k ==> IsSpace(s[i])) && (k < |s| ==> !IsSpace(s[k]))
    ensures Leads(s, p) <==> SpelledAt(s, k, p)
  {
    if j :| 0 <= j <= |s| && (forall i :: 0 <= i < j ==> IsSpace(s[i])) && SpelledAt(s, j, p) {
      assert s[j + 0] == p[0] || 'A' <= s[j + 0] <= 'Z';
      assert j == k;
    }
  }

  lemma SpacesStay(s: string)
    ensures |ToLower(s)| == |s|
    ensures forall i :: 0 <= i < |s| ==> (IsSpace(ToLower(s)[i]) <==> IsSpace(s[i]))
  {
    LowerAt(s);
  }

  lemma LeadsIff(s: string, p: string)
    requires Plain(p)
    ensures Leads(s, p) <==> p <= TrimLeft(ToLower(s))
  {
    SpacesStay(s);
    var k := TrimLeftDrops(ToLower(s));
    LeadsAt(s, k, p);
    if k + |p| <= |s| {
      SpelledIff(s, k, p);
      assert ToLower(s)[k..][..|p|] == ToLower(s)[k..k + |p|];
    }
  }

  lemma PrefixIff(contentType: string, p: string)
    requires Plain(p)
    ensures p <= MediaType(contentType) <==> Leads(contentType, p)
  {
    MediaTypeBegins(contentType, p);
    LeadsIff(contentType, p);
  }

  lemma TextIsPlain()
    ensures Plain("text/event-stream") && Plain("text/")
  {
  }

  lemma ApplicationIsPlain()
    ensures Plain("application/json") && Plain("application/javascript")
  {
  }

  lemma SvgIsPlain()
    ensures Plain("image/svg+xml")
  {
  }

  /**
   Which content types are compressed, whatever follows in parameters: those that begin, after white space and in
   either case, with one of four prefixes, and not with that of an event stream.
   */
  lemma CompressibleIff(contentType: string)
    ensures Compressible(contentType) <==>
            && !Leads(contentType, "text/event-stream")
            && (|| Leads(contentType, "application/json") || Leads(contentType, "application/javascript")
                || Leads(contentType, "text/") || Leads(contentType, "image/svg+xml"))
  {
    TextIsPlain();
    ApplicationIsPlain();
    SvgIsPlain();
    PrefixIff(contentType, "text/event-stream");
    PrefixIff(contentType, "application/json");
    PrefixIff(contentType, "application/javascript");
    PrefixIff(contentType, "text/");
    PrefixIff(contentType, "image/svg+xml");
  }

  // ---- Writer state ----

  datatype Header = Header(contentType: string, contentEncoding: Option<string>, contentLength: Option<nat>)

  /** What reaches the connection: raw bytes, or calls on the gzip stream. */
  datatype Piece = Raw(data: seq<byte>) | GzData(data: seq<byte>) | GzFlush | GzEnd

  /** The head of a response as it went out. */
  datatype Head = Head(status: int, header: Header)

  /** `gz` is whether a gzip stream is open; `sent` is the head, once it has gone out. */
  datatype Writer = Writer(decided: bool, gz: bool, sniff: seq<byte>, wroteGz: bool, status: int,
                           header: Header, sent: Option<Head>, out: seq<Piece>)

  function New(contentType: string, contentLength: Option<nat>): Writer {
    Writer(false, false, [], false, 0, Header(contentType, None, contentLength), None, [])
  }

  const OK_STATUS := 200

  /** The connection's WriteHeader; after the first it is ignored. */
  function SendHead(w: Writer, status: int): Writer {
    if w.sent.None? then w.(sent := Some(Head(status, w.header))) else w
  }

  /** A Write on the connection, which sends the head if nothing has. */
  function Emit(w: Writer, p: Piece): Writer { SendHead(w, OK_STATUS).(out := w.out + [p]) }

  function FlushSniffRaw(w: Writer): Writer {
    var w1 := if w.status != 0 then SendHead(w, w.status) else w;
    if |w1.sniff| > 0 then Emit(w1, Raw(w1.sniff)).(sniff := []) else w1
  }

  /** Announces gzip, opens the stream and writes the buffered bytes to it. */
  function StartStream(w: Writer): Writer {
    var w1 := w.(header := w.header.(contentLength := None, contentEncoding := Some("gzip")));
    var w2 := if w.status != 0 then SendHead(w1, w.status) else w1;
    Emit(w2.(gz := true, wroteGz := true), GzData(w.sniff)).(sniff := [])
  }

  function Decide(w: Writer): Writer {
    var w0 := w.(decided := true);
    if !Compressible(w.header.contentType) || |w.sniff| < MIN_SIZE then FlushSniffRaw(w0) else StartStream(w0)
  }

  // ---- The calls a handler makes ----

  datatype Call = SetContentType(contentType: string) | WriteHeader(code: int) | Write(data: seq<byte>) | Flush

  function Do(w: Writer, c: Call): Writer {
    match c
    case SetContentType(ct) => w.(header := w.header.(contentType := ct))
    case WriteHeader(code) => if w.decided then SendHead(w.(status := code), code) else w.(status := code)
    case Write(p) =>
      if !w.decided then
        var w1 := w.(sniff := w.sniff + p);
        if |w1.sniff| < MIN_SIZE then w1 else Decide(w1)
      else if !w.wroteGz then Emit(w, Raw(p))
      else Emit(w, GzData(p))
    case Flush =>
      var w1 := if w.decided then w else Decide(w);
      SendHead(if w1.wroteGz then Emit(w1, GzFlush) else w1, OK_STATUS)
  }

  function Close(w: Writer): Writer {
    var w1 := if w.decided then w else Decide(w);
    if w1.gz then SendHead(Emit(w1, GzEnd).(gz := false), OK_STATUS) else w1
  }

  function Run(w: Writer, cs: seq<Call>): Writer {
    if cs == [] then w else Do(Run(w, cs[..|cs| - 1]), cs[|cs| - 1])
  }

  // ---- What the client gets ----

  /** Everything the handler wrote. */
  function Written(cs: seq<Call>): seq<byte> {
    if cs == [] then []
    else Written(cs[..|cs| - 1]) + (if cs[|cs| - 1].Write? then cs[|cs| - 1].data else [])
  }

  function Data(ps: seq<Piece>): seq<byte> {
    if ps == [] then []
    else Data(ps[..|ps| - 1]) + (if ps[|ps| - 1].Raw? || ps[|ps| - 1].GzData? then ps[|ps| - 1].data else [])
  }

  predicate AllRaw(ps: seq<Piece>) { forall i :: 0 <= i < |ps| ==> ps[i].Raw? }

  /** One gzip stream, complete: data and flushes, then the trailer. */
  predicate OneStream(ps: seq<Piece>) {
    ps != [] && ps[|ps| - 1].GzEnd? && forall i :: 0 <= i < |ps| - 1 ==> ps[i].GzData? || ps[i].GzFlush?
  }

  /** The head on the wire; if nothing forced it out, it goes out when the handler returns. */
  function WireHead(w: Writer): Head { if w.sent.Some? then w.sent.value else Head(OK_STATUS, w.header) }

  function OnWire(w: Writer): Header { WireHead(w).header }

  /** The last status the handler set before the writer decided; zero if it set none. */
  function StatusSet(w: Writer, cs: seq<Call>): int {
    if cs == [] then 0
    else if cs[|cs| - 1].WriteHeader? && !Run(w, cs[..|cs| - 1]).decided then cs[|cs| - 1].code
    else StatusSet(w, cs[..|cs| - 1])
  }

  function StatusOr200(status: int): int { if status != 0 then status else OK_STATUS }

  /** A gzip coding: decoding a complete stream gives back the data written to it. */
  ghost predicate Codec(encode: seq<Piece> -> seq<byte>, decode: seq<byte> -> Option<seq<byte>>) {
    forall ps :: OneStream(ps) ==> decode(encode(ps)) == Some(Data(ps))
  }

  ghost function Wire(w: Writer, encode: seq<Piece> -> seq<byte>): seq<byte> {
    if w.wroteGz then encode(w.out) else Data(w.out)
  }

  /** The client decodes the body when the header says so. */
  ghost function ClientBody(w: Writer, encode: seq<Piece> -> seq<byte>, decode: seq<byte> -> Option<seq<byte>>): Option<seq<byte>> {
    if OnWire(w).contentEncoding == Some("gzip") then decode(Wire(w, encode)) else Some(Wire(w, encode))
  }

  // ---- Invariant ----

  /** Nothing has gone out. */
  predicate Untouched(w: Writer) {
    w.out == [] && w.sent.None? && !w.wroteGz && !w.gz && w.header.contentEncoding.None?
  }

  /**
   Before Close, with `written` bytes, status `status` and length header `length` from the handler:
   nothing out yet, or all raw, or an open gzip stream announced by the head.
   */
  ghost predicate Inv(w: Writer, written: seq<byte>, status: int, length: Option<nat>) {
    if !w.decided then
      && Untouched(w) && |w.sniff| < MIN_SIZE && w.sniff == written
      && w.header.contentLength == length && w.status == status
    else
      && w.sniff == [] && Data(w.out) == written && w.gz == w.wroteGz
      && w.sent.Some? && w.sent.value.status == StatusOr200(status)
      && (if w.wroteGz then Streaming(w) && |written| >= MIN_SIZE else PassedOn(w, length))
  }

  ghost predicate PassedOn(w: Writer, length: Option<nat>) {
    AllRaw(w.out) && OnWire(w).contentEncoding.None? && OnWire(w).contentLength == length
  }

  ghost predicate Streaming(w: Writer) {
    && (forall i :: 0 <= i < |w.out| ==> w.out[i].GzData? || w.out[i].GzFlush?)
    && OnWire(w).contentEncoding == Some("gzip") && OnWire(w).contentLength.None?
  }

  lemma DataAppend(ps: seq<Piece>, p: Piece)
    ensures Data(ps + [p]) == Data(ps) + (if p.Raw? || p.GzData? then p.data else [])
  {
    assert (ps + [p])[..|ps|] == ps;
  }

  lemma FlushSniffInv(w: Writer)
    requires w.decided && Untouched(w)
    ensures Inv(SendHead(FlushSniffRaw(w), OK_STATUS), w.sniff, w.status, w.header.contentLength)
    ensures var v := FlushSniffRaw(w); v.decided && !v.gz && !v.wroteGz && (w.sniff != [] ==> v.sent.Some?)
  {
    DataAppend([], Raw(w.sniff));
    assert [] + [Raw(w.sniff)] == [Raw(w.sniff)];
  }

  lemma StartStreamInv(w: Writer)
    requires w.decided && Untouched(w) && |w.sniff| >= MIN_SIZE
    ensures Inv(StartStream(w), w.sniff, w.status, w.header.contentLength)
    ensures var v := StartStream(w); v.decided && v.gz && v.wroteGz && v.sent.Some?
  {
    DataAppend([], GzData(w.sniff));
    assert [] + [GzData(w.sniff)] == [GzData(w.sniff)];
  }

  /** A decision on some bytes; on none it may leave the head unsent. */
  lemma DecideInv(w: Writer)
    requires !w.decided && Untouched(w)
    ensures Inv(SendHead(Decide(w), OK_STATUS), w.sniff, w.status, w.header.contentLength)
    ensures w.sniff != [] ==> Decide(w).sent.Some?
    ensures Decide(w).decided && Decide(w).gz == Decide(w).wroteGz
    ensures Decide(w).wroteGz <==> Compressible(w.header.contentType) && |w.sniff| >= MIN_SIZE
  {
    if Compressible(w.header.contentType) && |w.sniff| >= MIN_SIZE { StartStreamInv(w.(decided := true)); }
    else { FlushSniffInv(w.(decided := true)); }
  }

  lemma WriteInv(w: Writer, p: seq<byte>, written: seq<byte>, status: int, length: Option<nat>)
    requires Inv(w, written, status, length)
    ensures Inv(Do(w, Write(p)), written + p, status, length)
  {
    DataAppend(w.out, Raw(p));
    DataAppend(w.out, GzData(p));
    if !w.decided { DecideInv(w.(sniff := w.sniff + p)); }
  }

  lemma FlushInv(w: Writer, written: seq<byte>, status: int, length: Option<nat>)
    requires Inv(w, written, status, length)
    ensures Inv(Do(w, Flush), written, status, length)
  {
    if !w.decided { DecideInv(w); }
    DataAppend(w.out, GzFlush);
  }

  lemma DoInv(w: Writer, c: Call, written: seq<byte>, status: int, length: Option<nat>)
    requires Inv(w, written, status, length)
    ensures Inv(Do(w, c), written + (if c.Write? then c.data else []),
                if c.WriteHeader? && !w.decided then c.code else status, length)
  {
    assert written + [] == written;
    match c
    case Write(p) => WriteInv(w, p, written, status, length);
    case Flush => FlushInv(w, written, status, length);
    case _ =>
  }

  lemma {:induction false} RunInv(contentType: string, contentLength: Option<nat>, cs: seq<Call>)
    ensures var w := New(contentType, contentLength); Inv(Run(w, cs), Written(cs), StatusSet(w, cs), contentLength)
  {
    if cs != [] {
      var w, init := New(contentType, contentLength), cs[..|cs| - 1];
      RunInv(contentType, contentLength, init);
      DoInv(Run(w, init), cs[|cs| - 1], Written(init), StatusSet(w, init), contentLength);
    }
  }

  /** A closed response: everything written is out, as one complete stream or raw, under a true head. */
  ghost predicate Complete(w: Writer, written: seq<byte>, status: int, length: Option<nat>) {
    && Data(w.out) == written
    && (if w.wroteGz then OneStream(w.out) else AllRaw(w.out))
    && (OnWire(w).contentEncoding == Some("gzip") <==> w.wroteGz)
    && OnWire(w).contentLength == (if w.wroteGz then None else length)
    && WireHead(w).status == StatusOr200(status)
  }

  lemma EndComplete(w: Writer, written: seq<byte>, status: int, length: Option<nat>)
    requires Inv(w, written, status, length) && w.decided
    ensures Complete(Close(w), written, status, length)
  {
    DataAppend(w.out, GzEnd);
  }

  lemma CloseComplete(w: Writer, written: seq<byte>, status: int, length: Option<nat>)
    requires Inv(w, written, status, length)
    ensures Complete(Close(w), written, status, length)
  {
    if w.decided {
      EndComplete(w, written, status, length);
    } else {
      DecideInv(w);
      assert !Decide(w).wroteGz;
    }
  }

  /**
   Whatever a handler does before Close, the client gets exactly the bytes written; the output is
   all raw or one complete gzip stream; and Content-Encoding says gzip exactly in the second case,
   then without a Content-Length.
   */
  lemma BodyPreserved(contentType: string, contentLength: Option<nat>, cs: seq<Call>,
                      encode: seq<Piece> -> seq<byte>, decode: seq<byte> -> Option<seq<byte>>)
    requires Codec(encode, decode)
    ensures var w := Close(Run(New(contentType, contentLength), cs));
            && ClientBody(w, encode, decode) == Some(Written(cs))
            && (if w.wroteGz then OneStream(w.out) else AllRaw(w.out))
            && (OnWire(w).contentEncoding == Some("gzip") <==> w.wroteGz)
            && OnWire(w).contentLength == (if w.wroteGz then None else contentLength)
  {
    var w := New(contentType, contentLength);
    RunInv(contentType, contentLength, cs);
    CloseComplete(Run(w, cs), Written(cs), StatusSet(w, cs), contentLength);
  }

  /** The client sees the last status set before the decision, or 200. */
  lemma StatusPreserved(contentType: string, contentLength: Option<nat>, cs: seq<Call>)
    ensures var w := New(contentType, contentLength);
            WireHead(Close(Run(w, cs))).status == StatusOr200(StatusSet(w, cs))
  {
    var w := New(contentType, contentLength);
    RunInv(contentType, contentLength, cs);
    CloseComplete(Run(w, cs), Written(cs), StatusSet(w, cs), contentLength);
  }

  /** The deferred second Close emits nothing, whatever state the first one met. */
  lemma CloseTwice(w: Writer)
    ensures Close(Close(w)) == Close(w)
  {
    CloseEnds(if w.decided then w else Decide(w));
  }

  lemma CloseEnds(w: Writer)
    requires w.decided
    ensures Close(w).decided && !Close(w).gz && Close(Close(w)) == Close(w)
  {
  }

  // ---- When a response is compressed ----

  /** Call `n` makes the writer decide, if nothing has before: a Flush, or the Write that reaches 512 bytes. */
  predicate Forces(cs: seq<Call>, n: nat)
    requires n < |cs|
  {
    cs[n].Flush? || (cs[n].Write? && |Written(cs[..n + 1])| >= 512)
  }

  predicate FirstForced(cs: seq<Call>, n: nat) {
    n < |cs| && Forces(cs, n) && forall j :: 0 <= j < n ==> !Forces(cs, j)
  }

  /** The content type in force after the calls. */
  function TypeInForce(contentType: string, cs: seq<Call>): string {
    if cs == [] then contentType
    else if cs[|cs| - 1].SetContentType? then cs[|cs| - 1].contentType
    else TypeInForce(contentType, cs[..|cs| - 1])
  }

  /** What the decision at call `n` must be. */
  predicate Qualifies(contentType: string, cs: seq<Call>, n: nat)
    requires n < |cs|
  {
    Compressible(TypeInForce(contentType, cs[..n])) && |Written(cs[..n + 1])| >= 512
  }

  lemma ForcedInit(cs: seq<Call>, n: nat)
    requires n < |cs| - 1
    ensures FirstForced(cs, n) <==> FirstForced(cs[..|cs| - 1], n)
  {
    var init := cs[..|cs| - 1];
    forall j | 0 <= j <= n ensures Forces(cs, j) == Forces(init, j) {
      assert cs[..j + 1] == init[..j + 1];
    }
  }

  /** Whether a run has decided, and how, told from the calls alone. */
  ghost predicate DecidedAsForced(w: Writer, contentType: string, cs: seq<Call>) {
    && (w.decided <==> exists n: nat :: FirstForced(cs, n))
    && (forall n: nat | FirstForced(cs, n) :: w.wroteGz <==> Qualifies(contentType, cs, n))
    && (!w.decided ==> w.header.contentType == TypeInForce(contentType, cs))
  }

  lemma DecidedStays(w: Writer, c: Call)
    requires w.decided
    ensures Do(w, c).decided && Do(w, c).wroteGz == w.wroteGz
  {
  }

  /** The first forcing call, and what it must lead to, do not depend on later calls. */
  lemma FirstForcedStays(contentType: string, cs: seq<Call>, init: seq<Call>, m: nat)
    requires cs != [] && init == cs[..|cs| - 1] && FirstForced(init, m)
    ensures forall n: nat :: FirstForced(cs, n) <==> n == m
    ensures Qualifies(contentType, cs, m) == Qualifies(contentType, init, m)
  {
    ForcedInit(cs, m);
    assert cs[..m] == init[..m] && cs[..m + 1] == init[..m + 1];
  }

  lemma DecidedEarlier(w: Writer, v: Writer, contentType: string, cs: seq<Call>, init: seq<Call>)
    requires cs != [] && init == cs[..|cs| - 1] && DecidedAsForced(w, contentType, init)
    requires w.decided && v.decided && v.wroteGz == w.wroteGz
    ensures DecidedAsForced(v, contentType, cs)
  {
    var m: nat :| FirstForced(init, m);
    FirstForcedStays(contentType, cs, init, m);
    assert FirstForced(cs, m);
  }

  lemma OnlyLastForced(cs: seq<Call>, init: seq<Call>)
    requires cs != [] && init == cs[..|cs| - 1] && forall n: nat :: !FirstForced(init, n)
    ensures forall n: nat :: FirstForced(cs, n) <==> n == |cs| - 1 && Forces(cs, n)
  {
    NothingForced(init);
    forall j | 0 <= j < |init| ensures !Forces(cs, j) { assert cs[..j + 1] == init[..j + 1] && !Forces(init, j); }
  }

  lemma DecidedNow(w: Writer, contentType: string, cs: seq<Call>, init: seq<Call>)
    requires cs != [] && init == cs[..|cs| - 1] && DecidedAsForced(w, contentType, init)
    requires !w.decided && Untouched(w) && |w.sniff| < MIN_SIZE && w.sniff == Written(init)
    ensures DecidedAsForced(Do(w, cs[|cs| - 1]), contentType, cs)
  {
    var last := |cs| - 1;
    OnlyLastForced(cs, init);
    assert cs[..last + 1] == cs;
    assert FirstForced(cs, last) <==> Forces(cs, last);
    DecisionNow(w, cs[last]);
  }

  lemma {:induction false} DecisionPoint(contentType: string, contentLength: Option<nat>, cs: seq<Call>)
    ensures DecidedAsForced(Run(New(contentType, contentLength), cs), contentType, cs)
  {
    if cs != [] {
      var init, c := cs[..|cs| - 1], cs[|cs| - 1];
      var w := Run(New(contentType, contentLength), init);
      DecisionPoint(contentType, contentLength, init);
      RunInv(contentType, contentLength, init);
      if w.decided {
        DecidedStays(w, c);
        DecidedEarlier(w, Do(w, c), contentType, cs, init);
      } else {
        DecidedNow(w, contentType, cs, init);
      }
    }
  }

  /** Calls of which none is the first to force a decision force none. */
  lemma {:induction false} NothingForced(cs: seq<Call>)
    requires forall n: nat :: !FirstForced(cs, n)
    ensures forall j :: 0 <= j < |cs| ==> !Forces(cs, j)
  {
    var j := 0;
    while j < |cs|
      invariant 0 <= j <= |cs| && forall i :: 0 <= i < j ==> !Forces(cs, i)
    {
      assert !FirstForced(cs, j);
      j := j + 1;
    }
  }

  /** One call on a writer that has not decided. */
  lemma DecisionNow(w: Writer, c: Call)
    requires !w.decided && Untouched(w) && |w.sniff| < MIN_SIZE
    ensures var n := |w.sniff + (if c.Write? then c.data else [])|;
            && (Do(w, c).decided <==> c.Flush? || (c.Write? && n >= MIN_SIZE))
            && (Do(w, c).decided ==> (Do(w, c).wroteGz <==> Compressible(w.header.contentType) && n >= MIN_SIZE))
            && (!Do(w, c).decided ==>
                  Do(w, c).header.contentType == if c.SetContentType? then c.contentType else w.header.contentType)
  {
    match c
    case Write(p) => DecideInv(w.(sniff := w.sniff + p));
    case Flush => DecideInv(w);
    case _ =>
  }

  /**
   A response goes out compressed if and only if, at the first call that forces a decision, the
   content type then in force is compressible and at least 512 bytes have been written.
   */
  lemma CompressedIff(contentType: string, contentLength: Option<nat>, cs: seq<Call>)
    ensures Close(Run(New(contentType, contentLength), cs)).wroteGz <==>
            exists n: nat :: FirstForced(cs, n) && Qualifies(contentType, cs, n)
  {
    var w := Run(New(contentType, contentLength), cs);
    DecisionPoint(contentType, contentLength, cs);
    RunInv(contentType, contentLength, cs);
    if !w.decided { DecideInv(w); }
    forall n: nat, m: nat | FirstForced(cs, n) && FirstForced(cs, m) ensures n == m {}
  }

  /** A Flush before 512 bytes commits the response to raw for good. */
  lemma EarlyFlushIsRaw(contentType: string, contentLength: Option<nat>, cs: seq<Call>, ds: seq<Call>)
    requires !Run(New(contentType, contentLength), cs).decided
    ensures !Run(Do(Run(New(contentType, contentLength), cs), Flush), ds).wroteGz
  {
    RunInv(contentType, contentLength, cs);
    DecideInv(Run(New(contentType, contentLength), cs));
    StaysRaw(Do(Run(New(contentType, contentLength), cs), Flush), ds);
  }

  lemma {:induction false} StaysRaw(w: Writer, ds: seq<Call>)
    requires w.decided && !w.wroteGz
    ensures Run(w, ds).decided && !Run(w, ds).wroteGz
  {
    if ds != [] { StaysRaw(w, ds[..|ds| - 1]); }
  }

  // ---- Handlers that write nothing ----

  lemma {:induction false} SilentRun(contentType: string, contentLength: Option<nat>, cs: seq<Call>)
    requires forall i :: 0 <= i < |cs| ==> !cs[i].Write?
    ensures var w := Run(New(contentType, contentLength), cs);
            w.out == [] && !w.wroteGz && (w.decided <==> exists i :: 0 <= i < |cs| && cs[i].Flush?)
  {
    if cs != [] {
      var init := cs[..|cs| - 1];
      SilentRun(contentType, contentLength, init);
      RunInv(contentType, contentLength, init);
      assert Written(init) == [] by { NothingWritten(init); }
      assert (exists i :: 0 <= i < |cs| && cs[i].Flush?) <==> cs[|cs| - 1].Flush? || exists i :: 0 <= i < |init| && init[i].Flush? by {
        forall i | 0 <= i < |init| ensures init[i] == cs[i] {}
      }
    }
  }

  lemma {:induction false} NothingWritten(cs: seq<Call>)
    requires forall i :: 0 <= i < |cs| ==> !cs[i].Write?
    ensures Written(cs) == []
  {
    if cs != [] { NothingWritten(cs[..|cs| - 1]); }
  }

  /**
   A handler that writes nothing gets no body and no gzip stream, and its head is sent early exactly when it flushed or
   set a status.
   */
  lemma SilentHandler(contentType: string, contentLength: Option<nat>, cs: seq<Call>)
    requires forall i :: 0 <= i < |cs| ==> !cs[i].Write?
    ensures var w := Close(Run(New(contentType, contentLength), cs));
            && w.out == [] && !w.wroteGz
            && (w.sent.Some? <==> StatusSet(New(contentType, contentLength), cs) != 0 || exists i :: 0 <= i < |cs| && cs[i].Flush?)
  {
    SilentRun(contentType, contentLength, cs);
    RunInv(contentType, contentLength, cs);
    NothingWritten(cs);
  }

  // ---- The writer as an object ----

  class GzipResponseWriter {
    var decided: bool
    var gz: bool
    var sniff: seq<byte>
    var wroteGz: bool
    var status: int
    /** The wrapped connection. */
    var header: Header
    var sent: Option<Head>
    var out: seq<Piece>

    constructor (contentType: string, contentLength: Option<nat>)
      ensures State() == New(contentType, contentLength)
    {
      decided, gz, sniff, wroteGz, status := false, false, [], false, 0;
      header, sent, out := Header(contentType, None, contentLength), None, [];
    }

    function State(): Writer
      reads this
    {
      Writer(decided, gz, sniff, wroteGz, status, header, sent, out)
    }

    method SendTheHead(code: int)
      modifies this`sent
      ensures State() == SendHead(old(State()), code)
    {
      if sent.None? { sent := Some(Head(code, header)); }
    }

    method EmitPiece(p: Piece)
      modifies this`sent, this`out
      ensures State() == Emit(old(State()), p)
    {
      SendTheHead(OK_STATUS);
      out := out + [p];
    }

    method FlushSniff()
      modifies this
      ensures State() == FlushSniffRaw(old(State()))
    {
      if status != 0 { SendTheHead(status); }
      if |sniff| > 0 {
        EmitPiece(Raw(sniff));
        sniff := [];
      }
    }

    static method HasCompressiblePrefix(base: string) returns (compressible: bool)
      ensures compressible <==> "application/json" <= base || "application/javascript" <= base
                                || "text/" <= base || "image/svg+xml" <= base
    {
      var prefixes := ["application/json", "application/javascript", "text/", "image/svg+xml"];
      compressible := false;
      for i := 0 to |prefixes|
        invariant !compressible && forall j :: 0 <= j < i ==> !(prefixes[j] <= base)
      {
        if prefixes[i] <= base { return true; }
      }
      assert !(prefixes[0] <= base) && !(prefixes[1] <= base) && !(prefixes[2] <= base) && !(prefixes[3] <= base);
    }

    method DecideNow()
      modifies this
      ensures State() == Decide(old(State()))
    {
      decided := true;
      var base := MediaType(header.contentType);
      if "text/event-stream" <= base {
        FlushSniff();
        return;
      }
      var compressible := HasCompressiblePrefix(base);
      if !compressible || |sniff| < MIN_SIZE {
        FlushSniff();
        return;
      }
      OpenStream();
    }

    method OpenStream()
      modifies this
      ensures State() == StartStream(old(State()))
    {
      header := header.(contentLength := None);
      header := header.(contentEncoding := Some("gzip"));
      if status != 0 { SendTheHead(status); }
      gz, wroteGz := true, true;
      EmitPiece(GzData(sniff));
      sniff := [];
    }

    method WriteStatus(code: int)
      modifies this
      ensures State() == Do(old(State()), WriteHeader(code))
    {
      status := code;
      if decided { SendTheHead(code); }
    }

    method WriteBody(p: seq<byte>)
      requires wroteGz ==> gz
      modifies this
      ensures State() == Do(old(State()), Write(p))
    {
      if !decided {
        sniff := sniff + p;
        if |sniff| < MIN_SIZE { return; }
        DecideNow();
      } else if !wroteGz {
        EmitPiece(Raw(p));
      } else {
        EmitPiece(GzData(p));
      }
    }

    method FlushNow()
      requires wroteGz ==> gz
      modifies this
      ensures State() == Do(old(State()), Flush)
    {
      if !decided {
        decided := true;
        DecideNow();
      }
      if wroteGz { EmitPiece(GzFlush); }
      SendTheHead(OK_STATUS);
    }

    method CloseBody()
      modifies this
      ensures State() == Close(old(State()))
    {
      if !decided {
        decided := true;
        DecideNow();
      }
      if gz {
        EmitPiece(GzEnd);
        gz := false;
        SendTheHead(OK_STATUS);
      }
    }
  }
}
