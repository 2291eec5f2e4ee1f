/** Reading container logs: the frames of a log stream, and the lines of one
    log event that arrive as several physical lines. */
module FrameStream {

  type Byte = x: nat | x < 256

  /** What one read returns at most. */
  const ReadLimit: nat := 512 * 1024

  /** The stream byte and its padding, and the payload. */
  datatype Frame = Frame(head: seq<Byte>, payload: seq<Byte>) {
    predicate Valid() {
      |head| == 4 && |payload| < 0x1_0000_0000
    }
  }

  function Pair(high: nat, low: nat): nat {
    256 * high + low
  }

  function BigEndian(n: nat): (r: seq<Byte>)
    requires n < 0x1_0000_0000
    ensures |r| == 4
  {
    [n / 256 / 256 / 256, n / 256 / 256 % 256, n / 256 % 256, n % 256]
  }

  function Uint32(b: seq<Byte>): (n: nat)
    requires |b| == 4
    ensures n < 0x1_0000_0000
  {
    Pair(Pair(Pair(b[0], b[1]), b[2]), b[3])
  }

  lemma PairParts(high: nat, low: nat)
    requires low < 256
    ensures Pair(high, low) / 256 == high && Pair(high, low) % 256 == low
  {
  }

  lemma PairWhole(n: nat)
    ensures Pair(n / 256, n % 256) == n
  {
  }

  lemma Uint32RoundTrip(n: nat)
    requires n < 0x1_0000_0000
    ensures Uint32(BigEndian(n)) == n
  {
    hide Pair;
    PairWhole(n);
    PairWhole(n / 256);
    PairWhole(n / 256 / 256);
  }

  function Encode(f: Frame): seq<Byte>
    requires f.Valid()
  {
    f.head + BigEndian(|f.payload|) + f.payload
  }

  function EncodeAll(fs: seq<Frame>): seq<Byte>
    requires forall i :: 0 <= i < |fs| ==> fs[i].Valid()
  {
    if fs == [] then [] else Encode(fs[0]) + EncodeAll(fs[1..])
  }

  function Payloads(fs: seq<Frame>): seq<Byte> {
    if fs == [] then [] else fs[0].payload + Payloads(fs[1..])
  }

  /** Nothing more can be read: a short header, an empty frame, or a frame cut off. */
  predicate Stops(b: seq<Byte>) {
    |b| < 8 || Uint32(b[4..8]) == 0 || |b| < 8 + Uint32(b[4..8])
  }

  /** The frames a body starts with. */
  function Frames(b: seq<Byte>): seq<Frame> {
    if Stops(b) then []
    else
      var n := Uint32(b[4..8]);
      [Frame(b[..4], b[8..8 + n])] + Frames(b[8 + n..])
  }

  /** What follows them. */
  function Rest(b: seq<Byte>): seq<Byte> {
    if Stops(b) then b else Rest(b[8 + Uint32(b[4..8])..])
  }

  /** The frames before the first empty one. */
  function BeforeEmpty(fs: seq<Frame>): (r: seq<Frame>)
    ensures |r| <= |fs|
  {
    if fs == [] || fs[0].payload == [] then [] else [fs[0]] + BeforeEmpty(fs[1..])
  }

  /** A body is taken for a frame stream by its first byte alone. */
  predicate LooksFramed(input: seq<Byte>) {
    input != [] && (input[0] == 1 || input[0] == 2)
  }

  function Demuxed(input: seq<Byte>): seq<Byte> {
    if LooksFramed(input) then Payloads(Frames(input)) else input
  }

  /** demuxDockerLogs, up to the splitting into lines. Any read of at most the limit
      is safe to slice: the 32-bit end of a frame cannot wrap. */
  method Demux(input: seq<Byte>) returns (text: seq<Byte>)
    requires |input| <= ReadLimit
    ensures text == Demuxed(input)
  {
    hide Uint32;
    if |input| == 0 {
      return [];
    }
    if input[0] != 1 && input[0] != 2 {
      return input;
    }
    text := [];
    var body := input;
    while |body| >= 8
      invariant |body| <= |input| && text + Payloads(Frames(body)) == Payloads(Frames(input))
      decreases |body|
    {
      var size := Uint32(body[4..8]);
      if size == 0 || |body| < 8 + size {
        break;
      }
      var end := (8 + size) % 0x1_0000_0000;
      assert Frames(body) == [Frame(body[..4], body[8..end])] + Frames(body[end..]);
      text := text + body[8..end];
      body := body[end..];
    }
    assert Stops(body);
  }

  /** Every body is its frames followed by something that stops. */
  lemma {:induction false} FramesAndRest(b: seq<Byte>)
    ensures forall i :: 0 <= i < |Frames(b)| ==> Frames(b)[i].Valid() && Frames(b)[i].payload != []
    ensures b == EncodeAll(Frames(b)) + Rest(b) && Stops(Rest(b))
  {
    hide Uint32, BigEndian;
    if !Stops(b) {
      var n := Uint32(b[4..8]);
      var f, more := Frame(b[..4], b[8..8 + n]), b[8 + n..];
      FramesAndRest(more);
      SplitUint32(b[4..8]);
      Reassembled(b, n);
    }
  }

  lemma Reassembled(b: seq<Byte>, n: nat)
    requires |b| >= 8 + n && n < 0x1_0000_0000 && BigEndian(n) == b[4..8]
    ensures b == Encode(Frame(b[..4], b[8..8 + n])) + b[8 + n..]
  {
    hide BigEndian;
    assert b == b[..4] + b[4..8] + b[8..8 + n] + b[8 + n..];
  }

  lemma SplitUint32(b: seq<Byte>)
    requires |b| == 4
    ensures BigEndian(Uint32(b)) == b
  {
    hide Pair;
    var n := Pair(Pair(b[0], b[1]), b[2]);
    PairParts(n, b[3]);
    PairParts(Pair(b[0], b[1]), b[2]);
    PairParts(b[0], b[1]);
  }

  lemma HeaderSaysSize(f: Frame, more: seq<Byte>)
    requires f.Valid()
    ensures var b := Encode(f) + more;
            |b| == 8 + |f.payload| + |more| && b[..4] == f.head && Uint32(b[4..8]) == |f.payload|
            && b[8..8 + |f.payload|] == f.payload && b[8 + |f.payload|..] == more
  {
    var b := Encode(f) + more;
    Uint32RoundTrip(|f.payload|);
    hide Uint32, BigEndian;
    assert b[4..8] == BigEndian(|f.payload|);
  }

  lemma FirstFrame(f: Frame, more: seq<Byte>)
    requires f.Valid() && f.payload != []
    ensures Frames(Encode(f) + more) == [f] + Frames(more) && Rest(Encode(f) + more) == Rest(more)
  {
    hide Uint32, Encode;
    HeaderSaysSize(f, more);
  }

  lemma EmptyFrameStops(f: Frame, more: seq<Byte>)
    requires f.Valid() && f.payload == []
    ensures Stops(Encode(f) + more)
  {
    hide Uint32, Encode;
    HeaderSaysSize(f, more);
  }

  /** Reading an encoding: the frames up to the first empty one come back, whatever
      broken frame ends the stream. */
  lemma {:induction false} EncodedFramesComeBack(fs: seq<Frame>, tail: seq<Byte>)
    requires forall i :: 0 <= i < |fs| ==> fs[i].Valid()
    requires Stops(tail)
    ensures Frames(EncodeAll(fs) + tail) == BeforeEmpty(fs)
  {
    if fs == [] {
      assert EncodeAll(fs) + tail == tail;
    } else {
      var more := EncodeAll(fs[1..]) + tail;
      assert EncodeAll(fs) + tail == Encode(fs[0]) + more;
      if fs[0].payload == [] {
        EmptyFrameStops(fs[0], more);
      } else {
        EncodedFramesComeBack(fs[1..], tail);
        FirstFrame(fs[0], more);
      }
    }
  }

  /** No payload byte follows an empty frame. */
  predicate NothingAfterEmpty(fs: seq<Frame>) {
    forall i, j :: 0 <= i < j < |fs| && fs[i].payload == [] ==> fs[j].payload == []
  }

  lemma {:induction false} PayloadSize(fs: seq<Frame>)
    ensures |Payloads(BeforeEmpty(fs))| <= |Payloads(fs)|
    ensures Payloads(fs) == [] <==> forall i :: 0 <= i < |fs| ==> fs[i].payload == []
    ensures Payloads(BeforeEmpty(fs)) == Payloads(fs) <==> NothingAfterEmpty(fs)
  {
    if fs != [] {
      var rest := fs[1..];
      PayloadSize(rest);
      assert fs[0].payload == [] && NothingAfterEmpty(fs) ==> forall i :: 0 <= i < |rest| ==> rest[i].payload == fs[i + 1].payload;
      if fs[0].payload != [] {
        SamePrefix(fs[0].payload, Payloads(BeforeEmpty(rest)), Payloads(rest));
        assert NothingAfterEmpty(rest) ==> NothingAfterEmpty(fs);
        assert NothingAfterEmpty(fs) ==> NothingAfterEmpty(rest);
      }
    }
  }

  lemma SamePrefix(p: seq<Byte>, a: seq<Byte>, b: seq<Byte>)
    ensures p + a == p + b <==> a == b
  {
    assert (p + a)[|p|..] == a && (p + b)[|p|..] == b;
  }

  lemma {:induction false} EncodedSize(fs: seq<Frame>)
    requires forall i :: 0 <= i < |fs| ==> fs[i].Valid()
    ensures |EncodeAll(fs)| == 8 * |fs| + |Payloads(fs)|
  {
    if fs != [] {
      EncodedSize(fs[1..]);
    }
  }

  /** What is read from a stream is its payloads in full, up to a frame that was cut
      off, if and only if it is empty, or it starts with stdout or stderr and no
      payload follows an empty frame. */
  lemma FullRecoveryExactly(fs: seq<Frame>, tail: seq<Byte>)
    requires forall i :: 0 <= i < |fs| ==> fs[i].Valid()
    requires Stops(tail)
    ensures var input := EncodeAll(fs) + tail;
            Demuxed(input) == Payloads(fs) <==> input == [] || (LooksFramed(input) && NothingAfterEmpty(fs))
  {
    EncodedFramesComeBack(fs, tail);
    PayloadSize(fs);
    EncodedSize(fs);
  }

  /** The frame behind an unknown first byte is not unwrapped: stream types 0 and 3
      come back with their headers. */
  lemma OtherStreamsStayRaw(head: Byte, payload: seq<Byte>)
    requires head != 1 && head != 2 && |payload| < 0x1_0000_0000
    ensures var f := Frame([head, 0, 0, 0], payload);
            Demuxed(EncodeAll([f])) == EncodeAll([f]) != Payloads([f])
  {
    var f := Frame([head, 0, 0, 0], payload);
    assert EncodeAll([f]) == Encode(f) + EncodeAll([]);
    EncodedSize([f]);
  }
}

module LogLines {
  import opened Text

  predicate IsSpace(c: char) {
    || c == ' ' || ('\t' <= c <= '\r') || c == '\U{85}' || c == '\U{a0}'
    || c == '\U{1680}' || ('\U{2000}' <= c <= '\U{200a}') || c == '\U{2028}' || c == '\U{2029}'
    || c == '\U{202f}' || c == '\U{205f}' || c == '\U{3000}'
  }

  function TrimLeft(s: string): string {
    if s != "" && IsSpace(s[0]) then TrimLeft(s[1..]) else s
  }

  function TrimRight(s: string): string {
    if s != "" && IsSpace(s[|s| - 1]) then TrimRight(s[..|s| - 1]) else s
  }

  function TrimSpace(s: string): string {
    TrimRight(TrimLeft(s))
  }

  /** Without the carriage returns at its end. */
  function TrimReturns(s: string): string {
    if s != "" && s[|s| - 1] == '\r' then TrimReturns(s[..|s| - 1]) else s
  }

  predicate HasSuffix(s: string, suffix: string) {
    |s| >= |suffix| && s[|s| - |suffix|..] == suffix
  }

  predicate IsBlank(s: string) {
    forall i :: 0 <= i < |s| ==> IsSpace(s[i])
  }

  lemma {:induction false} TrimmedLeft(s: string)
    ensures TrimLeft(s) == "" <==> IsBlank(s)
    ensures TrimLeft(s) != "" ==> !IsSpace(TrimLeft(s)[0])
  {
    if s != "" && IsSpace(s[0]) {
      TrimmedLeft(s[1..]);
      assert forall i :: 0 <= i < |s| ==> i > 0 ==> s[i] == s[1..][i - 1];
      assert IsBlank(s[1..]) ==> IsBlank(s);
    }
  }

  lemma {:induction false} TrimmedRight(s: string)
    ensures TrimRight(s) == "" <==> IsBlank(s)
  {
    if s != "" && IsSpace(s[|s| - 1]) {
      TrimmedRight(s[..|s| - 1]);
    }
  }

  /** Only blank text trims to nothing. */
  lemma TrimmedToNothing(s: string)
    ensures TrimSpace(s) == "" <==> IsBlank(s)
  {
    TrimmedLeft(s);
    TrimmedRight(TrimLeft(s));
  }

  // ---- the bracket automaton ----

  datatype Mode = Outside | Inside(quote: char, escaped: bool)

  datatype Scanner = Scanner(depth: int, mode: Mode)

  function Step(st: Scanner, c: char): Scanner {
    match st.mode
    case Inside(quote, escaped) =>
      if escaped then st.(mode := Inside(quote, false))
      else if c == '\\' then st.(mode := Inside(quote, true))
      else if c == quote then st.(mode := Outside)
      else st
    case Outside =>
      if c == '"' || c == '\'' then st.(mode := Inside(c, false))
      else if c == '{' || c == '[' then st.(depth := st.depth + 1)
      else if c == '}' || c == ']' then st.(depth := st.depth - 1)
      else st
  }

  function Scan(st: Scanner, s: string): Scanner
    decreases |s|
  {
    if s == "" then st else Scan(Step(st, s[0]), s[1..])
  }

  const Start: Scanner := Scanner(0, Outside)

  /** Opening minus closing brackets outside quoted text. */
  function Depth(s: string): int {
    Scan(Start, s).depth
  }

  /** Scanning goes on where it left off. */
  lemma {:induction false} ScanAppend(st: Scanner, a: string, b: string)
    ensures Scan(st, a + b) == Scan(Scan(st, a), b)
    decreases |a|
  {
    if a == "" {
      assert a + b == b;
    } else {
      ScanAppend(Step(st, a[0]), a[1..], b);
      assert (a + b)[1..] == a[1..] + b;
    }
  }

  lemma ScanOne(st: Scanner, c: char)
    ensures Scan(st, [c]) == Step(st, c)
  {
    assert Scan(Step(st, c), [c][1..]) == Step(st, c);
  }

  /** bracketDepth: the loop over bytes with its four variables. */
  method BracketDepth(s: string) returns (depth: int)
    ensures depth == Depth(s)
  {
    depth := 0;
    var inString, escape, quote := false, false, ' ';
    for i := 0 to |s|
      invariant Scan(Start, s[..i]) == Scanner(depth, if inString then Inside(quote, escape) else Outside)
      invariant !inString ==> !escape
    {
      var c := s[i];
      assert s[..i + 1] == s[..i] + [c];
      ScanAppend(Start, s[..i], [c]);
      ScanOne(Scan(Start, s[..i]), c);
      if inString {
        if escape {
          escape := false;
          continue;
        }
        if c == '\\' {
          escape := true;
          continue;
        }
        if c == quote {
          inString := false;
        }
        continue;
      }
      match c {
        case '"' => inString, quote := true, c;
        case '\'' => inString, quote := true, c;
        case '{' => depth := depth + 1;
        case '[' => depth := depth + 1;
        case '}' => depth := depth - 1;
        case ']' => depth := depth - 1;
        case _ =>
      }
    }
    assert s[..|s|] == s;
  }

  predicate IsBalanced(s: string) {
    Depth(s) == 0
  }

  /** The place of the first blank or tab. */
  function IndexBlank(s: string, i: nat): (r: nat)
    requires i <= |s|
    ensures i <= r <= |s|
    decreases |s| - i
  {
    if i == |s| || s[i] == ' ' || s[i] == '\t' then i else IndexBlank(s, i + 1)
  }

  /** `isTime` says which texts the two timestamp layouts accept. */
  predicate HasLeadingTimestamp(s: string, isTime: string -> bool) {
    || (|s| >= 20 && s[4] == '-' && s[7] == '-' && s[10] == 'T'
        && 10 < IndexBlank(s, 0) < |s| && isTime(s[..IndexBlank(s, 0)]))
    || (|s| > 15 && s[6] == '/' && s[13] == '.')
  }

  predicate IsStandalone(line: string, isTime: string -> bool) {
    var s := TrimSpace(line);
    s != "" && (("{" <= s && IsBalanced(s)) || HasLeadingTimestamp(s, isTime))
  }

  predicate IsIncomplete(line: string) {
    var s := TrimSpace(line);
    s != "" &&
    if HasSuffix(s, "{") || HasSuffix(s, "[") || HasSuffix(s, ",") then true
    else if Contains(s, "{") || Contains(s, "[") then !IsBalanced(s)
    else Depth(s) > 0
  }

  predicate IsContinuation(next: string) {
    var t := TrimSpace(next);
    || t == "}" || t == "]"
    || " " <= next || "\t" <= next
    || "'$" <= t || ("'" <= t && Contains(t, ":"))
    || ("\"" <= t && Contains(t, "\":") && !("{" <= t))
  }

  predicate ShouldMerge(prev: string, next: string, isTime: string -> bool) {
    !IsStandalone(next, isTime) && IsIncomplete(prev) && IsContinuation(next)
  }

  // ---- JSON lines ----

  /** A character of a JSON string as written: plain, or escaped. */
  datatype Letter = Plain(c: char) | Escaped(c: char)

  /** A JSON value as it stands in the text, white space included: after an opening
      bracket, after a comma, on both sides of a colon and after every value. */
  datatype Json =
    | Atom(text: string)
    | Text(letters: seq<Letter>)
    | Array(lead: string, items: Items)
    | Object(lead: string, members: Members)

  datatype Items = NoItem | Item(head: Json, after: string, lead: string, tail: Items)

  datatype Members =
    | NoMember
    | Member(key: seq<Letter>, before: string, between: string, value: Json, after: string, lead: string, rest: Members)

  predicate WellWritten(ls: seq<Letter>) {
    forall i :: 0 <= i < |ls| ==> (ls[i].Plain? ==> ls[i].c != '"' && ls[i].c != '\\')
  }

  /** Numbers, names and white space hold neither quotes nor brackets. */
  predicate Neutral(s: string) {
    forall i :: 0 <= i < |s| ==> s[i] !in "\"'{}[]"
  }

  /** White space between two tokens. */
  predicate Gap(s: string) {
    forall i :: 0 <= i < |s| ==> s[i] == ' ' || s[i] == '\t' || s[i] == '\n' || s[i] == '\r'
  }

  predicate Proper(v: Json) {
    match v
    case Atom(text) => Neutral(text)
    case Text(letters) => WellWritten(letters)
    case Array(lead, items) => Gap(lead) && ProperItems(items)
    case Object(lead, members) => Gap(lead) && ProperMembers(members)
  }

  predicate ProperItems(items: Items) {
    items.Item? ==> Proper(items.head) && Gap(items.after) && Gap(items.lead) && ProperItems(items.tail)
  }

  predicate ProperMembers(ms: Members) {
    ms.Member? ==>
      && WellWritten(ms.key) && Gap(ms.before) && Gap(ms.between)
      && Proper(ms.value) && Gap(ms.after) && Gap(ms.lead) && ProperMembers(ms.rest)
  }

  function Spell(ls: seq<Letter>): string {
    if ls == [] then "" else (if ls[0].Plain? then [ls[0].c] else ['\\', ls[0].c]) + Spell(ls[1..])
  }

  function Quote(ls: seq<Letter>): string {
    ['"'] + (Spell(ls) + ['"'])
  }

  function Render(v: Json): string {
    match v
    case Atom(text) => text
    case Text(letters) => Quote(letters)
    case Array(lead, items) => ['['] + ((lead + RenderItems(items)) + [']'])
    case Object(lead, members) => ['{'] + ((lead + RenderMembers(members)) + ['}'])
  }

  function Comma(more: bool, lead: string): string {
    if more then "," + lead else ""
  }

  function RenderItems(items: Items): string {
    match items
    case NoItem => ""
    case Item(head, after, lead, tail) => Render(head) + (after + (Comma(tail.Item?, lead) + RenderItems(tail)))
  }

  function RenderMembers(ms: Members): string {
    match ms
    case NoMember => ""
    case Member(key, before, between, value, after, lead, rest) =>
      Quote(key) + (Colon(before, between) + (Render(value) + (after + (Comma(rest.Member?, lead) + RenderMembers(rest)))))
  }

  function Colon(before: string, between: string): string {
    before + ":" + between
  }

  lemma GapsAreNeutral(before: string, between: string)
    requires Gap(before) && Gap(between)
    ensures Neutral(before) && Neutral(Comma(true, before)) && Neutral(Comma(false, before)) && Neutral(Colon(before, between))
  {
  }

  lemma {:induction false} NeutralScans(st: Scanner, s: string)
    requires st.mode.Outside? && Neutral(s)
    ensures Scan(st, s) == st
    decreases |s|
  {
    if s != "" {
      assert s[0] in s && s[0] !in "\"'{}[]";
      NeutralScans(st, s[1..]);
    }
  }

  lemma {:induction false} SpellScans(depth: int, ls: seq<Letter>)
    requires WellWritten(ls)
    ensures Scan(Scanner(depth, Inside('"', false)), Spell(ls)) == Scanner(depth, Inside('"', false))
  {
    if ls != [] {
      var st := Scanner(depth, Inside('"', false));
      SpellScans(depth, ls[1..]);
      if ls[0].Plain? {
        ScanAppend(st, [ls[0].c], Spell(ls[1..]));
        ScanOne(st, ls[0].c);
      } else {
        ScanAppend(st, ['\\', ls[0].c], Spell(ls[1..]));
        ScanAppend(st, ['\\'], [ls[0].c]);
        ScanOne(st, '\\');
        ScanOne(Step(st, '\\'), ls[0].c);
        assert ['\\', ls[0].c] == ['\\'] + [ls[0].c];
      }
    }
  }

  lemma QuoteScans(st: Scanner, ls: seq<Letter>)
    requires st.mode.Outside? && WellWritten(ls)
    ensures Scan(st, Quote(ls)) == st
  {
    ScanAppend(st, ['"'], Spell(ls) + ['"']);
    ScanOne(st, '"');
    var inside := Scanner(st.depth, Inside('"', false));
    ScanAppend(inside, Spell(ls), ['"']);
    SpellScans(st.depth, ls);
    ScanOne(inside, '"');
  }

  lemma Bracketed(st: Scanner, open: char, body: string, close: char)
    requires st.mode.Outside? && (open == '{' || open == '[') && (close == '}' || close == ']')
    requires Scan(Scanner(st.depth + 1, Outside), body) == Scanner(st.depth + 1, Outside)
    ensures Scan(st, [open] + (body + [close])) == st
  {
    var inner := Scanner(st.depth + 1, Outside);
    assert Step(st, open) == inner && Step(inner, close) == st;
    hide Scan, Step;
    ScanAppend(st, [open], body + [close]);
    ScanOne(st, open);
    ScanAppend(inner, body, [close]);
    ScanOne(inner, close);
  }

  /** Whatever a JSON text holds, brackets and quotes in strings and white space
      between tokens included, it leaves the automaton where it was. */
  lemma {:induction false} RenderBalanced(st: Scanner, v: Json)
    requires st.mode.Outside? && Proper(v)
    ensures Scan(st, Render(v)) == st
    decreases v
  {
    var inner := Scanner(st.depth + 1, Outside);
    match v
    case Atom(text) => NeutralScans(st, text);
    case Text(letters) => QuoteScans(st, letters);
    case Array(lead, items) =>
      ItemsBalanced(inner, items);
      Spaced(inner, lead, RenderItems(items));
      Bracketed(st, '[', lead + RenderItems(items), ']');
    case Object(lead, members) =>
      MembersBalanced(inner, members);
      Spaced(inner, lead, RenderMembers(members));
      Bracketed(st, '{', lead + RenderMembers(members), '}');
  }

  lemma Spaced(st: Scanner, lead: string, body: string)
    requires st.mode.Outside? && Gap(lead) && Scan(st, body) == st
    ensures Scan(st, lead + body) == st
  {
    GapsAreNeutral(lead, lead);
    NeutralScans(st, lead);
    ScanAppend(st, lead, body);
  }

  /** Two texts that leave the automaton alone do so together. */
  lemma Both(st: Scanner, a: string, b: string)
    requires Scan(st, a) == st && Scan(st, b) == st
    ensures Scan(st, a + b) == st
  {
    ScanAppend(st, a, b);
  }

  lemma {:induction false} ItemsBalanced(st: Scanner, items: Items)
    requires st.mode.Outside? && ProperItems(items)
    ensures Scan(st, RenderItems(items)) == st
    decreases items
  {
    if items.Item? {
      var comma, rest := Comma(items.tail.Item?, items.lead), RenderItems(items.tail);
      GapsAreNeutral(items.lead, items.after);
      GapsAreNeutral(items.after, items.lead);
      NeutralScans(st, comma);
      NeutralScans(st, items.after);
      RenderBalanced(st, items.head);
      ItemsBalanced(st, items.tail);
      Both(st, comma, rest);
      Both(st, items.after, comma + rest);
      Both(st, Render(items.head), items.after + (comma + rest));
    }
  }

  lemma {:induction false} MembersBalanced(st: Scanner, ms: Members)
    requires st.mode.Outside? && ProperMembers(ms)
    ensures Scan(st, RenderMembers(ms)) == st
    decreases ms
  {
    if ms.Member? {
      var colon, comma, rest := Colon(ms.before, ms.between), Comma(ms.rest.Member?, ms.lead), RenderMembers(ms.rest);
      var tail := ms.after + (comma + rest);
      GapsAreNeutral(ms.before, ms.between);
      GapsAreNeutral(ms.after, ms.lead);
      GapsAreNeutral(ms.lead, ms.after);
      NeutralScans(st, colon);
      NeutralScans(st, ms.after);
      NeutralScans(st, comma);
      QuoteScans(st, ms.key);
      RenderBalanced(st, ms.value);
      MembersBalanced(st, ms.rest);
      Both(st, comma, rest);
      Both(st, ms.after, comma + rest);
      Both(st, Render(ms.value), tail);
      Both(st, colon, Render(ms.value) + tail);
      Both(st, Quote(ms.key), colon + (Render(ms.value) + tail));
    }
  }

  /** A line that is a JSON object, whatever white space is around it and in it,
      stands alone: it is never appended to an earlier line, and nothing is
      appended to it. */
  lemma ObjectLineStandsAlone(line: string, v: Json, other: string, isTime: string -> bool)
    requires v.Object? && Proper(v) && TrimSpace(line) == Render(v)
    ensures !ShouldMerge(other, line, isTime)
    ensures !ShouldMerge(line, other, isTime)
  {
    var s := Render(v);
    RenderBalanced(Start, v);
    var body := v.lead + RenderMembers(v.members);
    assert s == ['{'] + (body + ['}']);
    assert s[0] == '{' && s[|s| - 1] == '}';
    assert "{" <= s && Contains(s, "{");
    EndsWith(s, "{");
    EndsWith(s, "[");
    EndsWith(s, ",");
  }

  /** An object with white space on both sides is such a line. */
  lemma PaddedObject(before: string, v: Json, after: string)
    requires v.Object? && IsBlank(before) && IsBlank(after)
    ensures TrimSpace(before + Render(v) + after) == Render(v)
  {
    var s := Render(v);
    var body := v.lead + RenderMembers(v.members);
    assert s == ['{'] + (body + ['}']) && s[0] == '{' && s[|s| - 1] == '}';
    assert before + s + after == before + (s + after);
    DropLeft(before, s + after);
    DropRight(s, after);
  }

  lemma {:induction false} DropLeft(before: string, s: string)
    requires IsBlank(before) && s != "" && !IsSpace(s[0])
    ensures TrimLeft(before + s) == s
  {
    if before == "" {
      assert before + s == s;
    } else {
      assert (before + s)[1..] == before[1..] + s;
      DropLeft(before[1..], s);
    }
  }

  lemma {:induction false} DropRight(s: string, after: string)
    requires IsBlank(after) && s != "" && !IsSpace(s[|s| - 1])
    ensures TrimRight(s + after) == s
  {
    if after == "" {
      assert s + after == s;
    } else {
      assert (s + after)[..|s + after| - 1] == s + after[..|after| - 1];
      DropRight(s, after[..|after| - 1]);
    }
  }

  // ---- blocks over several lines ----

  /** Blanks at the ends of a line change no depth. */
  lemma {:induction false} TrimLeftDepth(s: string)
    ensures Depth(TrimLeft(s)) == Depth(s)
  {
    if s != "" && IsSpace(s[0]) {
      assert Step(Start, s[0]) == Start;
      TrimLeftDepth(s[1..]);
    }
  }

  lemma {:induction false} TrimRightDepth(s: string)
    ensures Depth(TrimRight(s)) == Depth(s)
  {
    if s != "" && IsSpace(s[|s| - 1]) {
      var init, c := s[..|s| - 1], s[|s| - 1];
      assert s == init + [c];
      ScanAppend(Start, init, [c]);
      ScanOne(Scan(Start, init), c);
      TrimRightDepth(init);
    }
  }

  lemma TrimDepth(s: string)
    ensures Depth(TrimSpace(s)) == Depth(s)
  {
    TrimLeftDepth(s);
    TrimRightDepth(TrimLeft(s));
  }

  lemma {:induction false} ContainsChar(s: string, c: char)
    ensures Contains(s, [c]) <==> c in s
  {
    if s != "" {
      ContainsChar(s[1..], c);
      assert s == [s[0]] + s[1..];
      assert [c] <= s <==> s[0] == c;
    }
  }

  /** A line waits for more when it ends on an opening bracket or a comma, when more
      brackets open than close, and when it opens one but closes more. */
  lemma IncompleteExactly(line: string)
    ensures var t := TrimSpace(line);
            IsIncomplete(line) <==>
              || (t != "" && t[|t| - 1] in "{[,")
              || Depth(line) > 0
              || (Depth(line) != 0 && ('{' in t || '[' in t))
  {
    var t := TrimSpace(line);
    TrimDepth(line);
    ContainsChar(t, '{');
    ContainsChar(t, '[');
    if t != "" {
      EndsWith(t, "{");
      EndsWith(t, "[");
      EndsWith(t, ",");
    }
  }

  /** A line goes on with the text before it when it is indented, is a lone closing
      bracket, or starts as a quoted member would. */
  lemma ContinuationExactly(next: string)
    ensures var t := TrimSpace(next);
            IsContinuation(next) <==>
              || t == "}" || t == "]"
              || (next != "" && next[0] in " \t")
              || (|t| > 1 && t[0] == '\'' && (t[1] == '$' || ':' in t))
              || (t != "" && t[0] == '"' && Contains(t, "\":"))
  {
    var t := TrimSpace(next);
    ContainsChar(t, ':');
    if t == "'" {
      assert ':' !in t;
    }
  }

  /** A line that never merges upwards: a whole object, or one with a time of its own. */
  lemma OwnLineExactly(line: string, isTime: string -> bool)
    ensures var t := TrimSpace(line);
            IsStandalone(line, isTime) <==>
              t != "" && ((t[0] == '{' && Depth(line) == 0) || HasLeadingTimestamp(t, isTime))
  {
    TrimDepth(line);
  }

  /** While more brackets are open than closed, an indented line or a lone closing
      bracket is taken in, unless it starts an object or a record of its own. */
  lemma OpenTextTakesIn(text: string, next: string, isTime: string -> bool)
    requires Depth(text) > 0 && Follows(next, isTime)
    ensures ShouldMerge(text, next, isTime)
  {
    IncompleteExactly(text);
    ContinuationExactly(next);
    OwnLineExactly(next, isTime);
  }

  predicate Follows(next: string, isTime: string -> bool) {
    var t := TrimSpace(next);
    && t != "" && t[0] != '{' && !HasLeadingTimestamp(t, isTime)
    && (next[0] == ' ' || next[0] == '\t' || t == "}" || t == "]")
  }

  /** What is cut off are carriage returns, all of them. */
  lemma {:induction false} TrimmedReturns(s: string)
    ensures var t := TrimReturns(s);
            t <= s && (forall i :: |t| <= i < |s| ==> s[i] == '\r') && (t != "" ==> t[|t| - 1] != '\r')
  {
    if s != "" && s[|s| - 1] == '\r' {
      TrimmedReturns(s[..|s| - 1]);
    }
  }

  lemma EndsWith(s: string, c: string)
    requires s != "" && |c| == 1
    ensures HasSuffix(s, c) <==> s[|s| - 1] == c[0]
  {
    assert s[|s| - 1..] == [s[|s| - 1]];
  }
}

module LogEvents {
  import opened Wrappers
  import opened LogLines

  /** An instant; 0 is the zero time of a line without a timestamp. */
  type Time = int

  datatype Line = Line(ts: Time, message: string)

  /** The lines that count, without trailing carriage returns. */
  function Kept(lines: seq<Line>): seq<Line> {
    if lines == [] then []
    else
      var line := lines[|lines| - 1];
      var message := TrimReturns(line.message);
      Kept(lines[..|lines| - 1]) + (if TrimSpace(message) == "" then [] else [Line(line.ts, message)])
  }

  /** The accumulated text of a group. */
  function Joined(g: seq<Line>): string {
    if g == [] then ""
    else if |g| == 1 then g[0].message
    else Joined(g[..|g| - 1]) + ("\n" + g[|g| - 1].message)
  }

  function Flatten(groups: seq<seq<Line>>): seq<Line> {
    if groups == [] then [] else Flatten(groups[..|groups| - 1]) + groups[|groups| - 1]
  }

  /** Contiguous groups that break exactly where the accumulated text and the next line do not merge. */
  ghost predicate Grouping(groups: seq<seq<Line>>, lines: seq<Line>, isTime: string -> bool) {
    && Flatten(groups) == lines
    && (forall g :: 0 <= g < |groups| ==> groups[g] != [])
    && (forall g, j :: 0 <= g < |groups| && 1 <= j < |groups[g]| ==>
          ShouldMerge(Joined(groups[g][..j]), groups[g][j].message, isTime))
    && (forall g :: 1 <= g < |groups| && groups[g] != [] ==>
          !ShouldMerge(Joined(groups[g - 1]), groups[g][0].message, isTime))
  }

  function Grow(groups: seq<seq<Line>>, line: Line, isTime: string -> bool): seq<seq<Line>> {
    var n := |groups|;
    if n > 0 && ShouldMerge(Joined(groups[n - 1]), line.message, isTime)
    then groups[..n - 1] + [groups[n - 1] + [line]]
    else groups + [[line]]
  }

  function Groups(lines: seq<Line>, isTime: string -> bool): (groups: seq<seq<Line>>)
    ensures forall g :: 0 <= g < |groups| ==> groups[g] != []
  {
    if lines == [] then [] else Grow(Groups(lines[..|lines| - 1], isTime), lines[|lines| - 1], isTime)
  }

  function Entry(g: seq<Line>, now: Time): Line
    requires g != []
  {
    Line(if g[0].ts == 0 then now else g[0].ts, TrimSpace(Joined(g)))
  }

  function Entries(groups: seq<seq<Line>>, now: Time): (r: seq<Line>)
    requires forall g :: 0 <= g < |groups| ==> groups[g] != []
    ensures |r| == |groups|
  {
    seq(|groups|, g requires 0 <= g < |groups| => Entry(groups[g], now))
  }

  lemma {:induction false} KeptIsNotBlank(lines: seq<Line>)
    ensures forall i :: 0 <= i < |Kept(lines)| ==> !IsBlank(Kept(lines)[i].message)
  {
    if lines != [] {
      KeptIsNotBlank(lines[..|lines| - 1]);
      TrimmedToNothing(TrimReturns(lines[|lines| - 1].message));
    }
  }

  lemma {:induction false} JoinedStarts(g: seq<Line>)
    requires g != []
    ensures g[0].message <= Joined(g)
  {
    if |g| > 1 {
      JoinedStarts(g[..|g| - 1]);
    }
  }

  /** A group that starts with text is no blank entry. */
  lemma EntryIsNotBlank(g: seq<Line>)
    requires g != [] && !IsBlank(g[0].message)
    ensures TrimSpace(Joined(g)) != ""
  {
    var m, t := g[0].message, Joined(g);
    JoinedStarts(g);
    assert forall i :: 0 <= i < |m| ==> m[i] == t[i];
    TrimmedToNothing(t);
  }

  lemma GroupsSnoc(lines: seq<Line>, line: Line, isTime: string -> bool)
    ensures Groups(lines + [line], isTime) == Grow(Groups(lines, isTime), line, isTime)
  {
    hide Grow;
    assert (lines + [line])[..|lines|] == lines;
  }

  lemma GrowStarts(groups: seq<seq<Line>>, line: Line, isTime: string -> bool)
    requires forall g :: 0 <= g < |groups| ==> groups[g] != []
    ensures forall g :: 0 <= g < |Grow(groups, line, isTime)| ==>
              Grow(groups, line, isTime)[g] != [] &&
              Grow(groups, line, isTime)[g][0] == if g < |groups| then groups[g][0] else line
  {
    hide ShouldMerge, Joined;
  }

  lemma {:induction false} GroupsStartKept(lines: seq<Line>, isTime: string -> bool)
    requires forall i :: 0 <= i < |lines| ==> !IsBlank(lines[i].message)
    ensures forall g :: 0 <= g < |Groups(lines, isTime)| ==> !IsBlank(Groups(lines, isTime)[g][0].message)
  {
    hide ShouldMerge, Joined, IsBlank;
    if lines != [] {
      var init, line := lines[..|lines| - 1], lines[|lines| - 1];
      GroupsStartKept(init, isTime);
      assert lines == init + [line];
      GroupsSnoc(init, line, isTime);
      var before := Groups(init, isTime);
      hide Groups;
      GrowStarts(before, line, isTime);
    }
  }

  /** coalesceLogLines. */
  method Coalesce(lines: seq<Line>, isTime: string -> bool, now: Time) returns (out: seq<Line>)
    ensures out == Entries(Groups(Kept(lines), isTime), now)
  {
    hide ShouldMerge, TrimSpace, TrimReturns, Joined, IsBlank;
    out := [];
    if |lines| == 0 {
      return;
    }
    var cur: Option<Line> := None;
    ghost var gs: seq<seq<Line>> := [];
    assert lines[..0] == [];
    for i := 0 to |lines|
      invariant gs == Groups(Kept(lines[..i]), isTime)
      invariant cur.None? ==> gs == [] && out == []
      invariant cur.Some? ==> gs != []
      invariant cur.Some? && gs != [] ==>
        && cur.value == Line(gs[|gs| - 1][0].ts, Joined(gs[|gs| - 1]))
        && out == Entries(gs[..|gs| - 1], now)
    {
      var message := TrimReturns(lines[i].message);
      var line := Line(lines[i].ts, message);
      KeptSnoc(lines, i);
      if TrimSpace(message) == "" {
        continue;
      }
      ghost var kept := Kept(lines[..i]);
      KeptIsNotBlank(lines[..i]);
      GroupsStartKept(kept, isTime);
      GroupsSnoc(kept, line, isTime);
      ghost var before := gs;
      gs := Grow(gs, line, isTime);
      JoinedOne(line);
      if cur.None? {
        cur := Some(line);
        continue;
      }
      JoinedMore(before[|before| - 1], line);
      if ShouldMerge(cur.value.message, message, isTime) {
        cur := Some(cur.value.(message := cur.value.message + ("\n" + message)));
        continue;
      }
      out := Flush(cur.value, out, before, now);
      cur := Some(line);
    }
    assert lines[..|lines|] == lines;
    if cur.Some? {
      KeptIsNotBlank(lines);
      GroupsStartKept(Kept(lines), isTime);
      out := Flush(cur.value, out, gs, now);
    }
  }

  lemma KeptSnoc(lines: seq<Line>, i: nat)
    requires i < |lines|
    ensures var message := TrimReturns(lines[i].message);
            Kept(lines[..i + 1]) == if TrimSpace(message) == "" then Kept(lines[..i]) else Kept(lines[..i]) + [Line(lines[i].ts, message)]
  {
    assert lines[..i + 1][..i] == lines[..i];
    assert Kept(lines[..i]) + [] == Kept(lines[..i]);
  }

  lemma JoinedOne(line: Line)
    ensures Joined([line]) == line.message
  {
  }

  lemma JoinedMore(g: seq<Line>, line: Line)
    requires g != []
    ensures Joined(g + [line]) == Joined(g) + ("\n" + line.message)
  {
    assert (g + [line])[..|g|] == g;
  }

  /** The collected event becomes an entry; it always has text. */
  method Flush(cur: Line, out: seq<Line>, ghost gs: seq<seq<Line>>, now: Time) returns (after: seq<Line>)
    requires gs != [] && forall g :: 0 <= g < |gs| ==> gs[g] != []
    requires !IsBlank(gs[|gs| - 1][0].message)
    requires cur == Line(gs[|gs| - 1][0].ts, Joined(gs[|gs| - 1])) && out == Entries(gs[..|gs| - 1], now)
    ensures after == Entries(gs, now)
  {
    hide TrimSpace, Joined, IsBlank;
    EntryIsNotBlank(gs[|gs| - 1]);
    var message := TrimSpace(cur.message);
    after := out;
    if message != "" {
      after := out + [Line(if cur.ts == 0 then now else cur.ts, message)];
    }
    assert gs == gs[..|gs| - 1] + [gs[|gs| - 1]];
  }

  // ---- what the groups are ----

  lemma FlattenGrow(groups: seq<seq<Line>>, line: Line, isTime: string -> bool)
    ensures Flatten(Grow(groups, line, isTime)) == Flatten(groups) + [line]
  {
    hide ShouldMerge, Joined;
    var n := |groups|;
    var grown := Grow(groups, line, isTime);
    if n > 0 && ShouldMerge(Joined(groups[n - 1]), line.message, isTime) {
      assert grown[..n - 1] == groups[..n - 1];
    } else {
      assert grown[..n] == groups;
    }
  }

  lemma NoGroups(isTime: string -> bool)
    ensures Grouping([], [], isTime)
  {
  }

  lemma GrowKeeps(groups: seq<seq<Line>>, lines: seq<Line>, line: Line, isTime: string -> bool)
    requires Grouping(groups, lines, isTime)
    ensures Grouping(Grow(groups, line, isTime), lines + [line], isTime)
  {
    hide ShouldMerge, Joined, Flatten;
    FlattenGrow(groups, line, isTime);
    var n, grown := |groups|, Grow(groups, line, isTime);
    if n > 0 && ShouldMerge(Joined(groups[n - 1]), line.message, isTime) {
      var g := groups[n - 1];
      forall j | 1 <= j < |g| + 1 ensures ShouldMerge(Joined((g + [line])[..j]), (g + [line])[j].message, isTime) {
        assert (g + [line])[..j] == g[..j];
      }
    }
  }

  /** Coalescing partitions the kept lines into contiguous groups and breaks exactly
      where the accumulated text does not merge with the next line. */
  lemma {:induction false} GroupsPartition(lines: seq<Line>, isTime: string -> bool)
    ensures Grouping(Groups(lines, isTime), lines, isTime)
  {
    hide Grouping, Grow;
    if lines == [] {
      NoGroups(isTime);
    } else {
      var init, line := lines[..|lines| - 1], lines[|lines| - 1];
      GroupsPartition(init, isTime);
      assert lines == init + [line];
      GroupsSnoc(init, line, isTime);
      hide Groups;
      GrowKeeps(Groups(init, isTime), init, line, isTime);
    }
  }

  /** The groups without their last line. */
  function Shrunk(groups: seq<seq<Line>>): seq<seq<Line>>
    requires groups != [] && groups[|groups| - 1] != []
  {
    var n, last := |groups|, groups[|groups| - 1];
    if |last| == 1 then groups[..n - 1] else groups[..n - 1] + [last[..|last| - 1]]
  }

  lemma FlattenSnoc(groups: seq<seq<Line>>, g: seq<Line>)
    ensures Flatten(groups + [g]) == Flatten(groups) + g
  {
    assert (groups + [g])[..|groups|] == groups;
  }

  lemma ShrunkLines(groups: seq<seq<Line>>, lines: seq<Line>)
    requires groups != [] && groups[|groups| - 1] != [] && Flatten(groups) == lines
    ensures lines != [] && lines[|lines| - 1] == groups[|groups| - 1][|groups[|groups| - 1]| - 1]
    ensures Flatten(Shrunk(groups)) == lines[..|lines| - 1]
  {
    var before, last := groups[..|groups| - 1], groups[|groups| - 1];
    assert lines == Flatten(before) + last;
    hide Flatten;
    var init := last[..|last| - 1];
    assert lines[..|lines| - 1] == Flatten(before) + init;
    if |last| == 1 {
      assert init == [];
    } else {
      FlattenSnoc(before, init);
    }
  }

  lemma ShrunkSingle(groups: seq<seq<Line>>, lines: seq<Line>, isTime: string -> bool)
    requires Grouping(groups, lines, isTime) && groups != [] && |groups[|groups| - 1]| == 1
    ensures Grouping(Shrunk(groups), Flatten(Shrunk(groups)), isTime)
    ensures Grow(Shrunk(groups), groups[|groups| - 1][0], isTime) == groups
  {
    hide ShouldMerge, Joined, Flatten;
    var n, last, less := |groups|, groups[|groups| - 1], Shrunk(groups);
    assert last == [last[0]] && groups == less + [last];
    assert n > 1 ==> !ShouldMerge(Joined(groups[n - 2]), last[0].message, isTime);
  }

  lemma RegrowLonger(groups: seq<seq<Line>>, isTime: string -> bool)
    requires groups != [] && |groups[|groups| - 1]| > 1
    requires var last := groups[|groups| - 1];
             ShouldMerge(Joined(last[..|last| - 1]), last[|last| - 1].message, isTime)
    ensures var last := groups[|groups| - 1]; Grow(Shrunk(groups), last[|last| - 1], isTime) == groups
  {
    hide ShouldMerge, Joined;
    var n, last, less := |groups|, groups[|groups| - 1], Shrunk(groups);
    assert less[..n - 1] == groups[..n - 1] && last == last[..|last| - 1] + [last[|last| - 1]];
  }

  lemma ShrunkLonger(groups: seq<seq<Line>>, lines: seq<Line>, isTime: string -> bool)
    requires Grouping(groups, lines, isTime) && groups != [] && |groups[|groups| - 1]| > 1
    ensures Grouping(Shrunk(groups), Flatten(Shrunk(groups)), isTime)
    ensures var last := groups[|groups| - 1]; Grow(Shrunk(groups), last[|last| - 1], isTime) == groups
  {
    hide ShouldMerge, Joined, Flatten, Grow;
    var last := groups[|groups| - 1];
    var g := last[..|last| - 1];
    forall j | 1 <= j < |g| ensures ShouldMerge(Joined(g[..j]), g[j].message, isTime) {
      assert g[..j] == last[..j];
    }
    assert ShouldMerge(Joined(g), last[|last| - 1].message, isTime);
    RegrowLonger(groups, isTime);
  }

  lemma ShrunkGrouping(groups: seq<seq<Line>>, lines: seq<Line>, isTime: string -> bool)
    requires Grouping(groups, lines, isTime) && groups != []
    ensures lines != [] && Grouping(Shrunk(groups), lines[..|lines| - 1], isTime)
    ensures Grow(Shrunk(groups), lines[|lines| - 1], isTime) == groups
  {
    ShrunkLines(groups, lines);
    hide Grow, Shrunk, ShouldMerge, Joined, Flatten;
    if |groups[|groups| - 1]| == 1 {
      ShrunkSingle(groups, lines, isTime);
    } else {
      ShrunkLonger(groups, lines, isTime);
    }
  }

  /** Such a partition is unique. */
  lemma {:induction false} GroupingIsUnique(groups: seq<seq<Line>>, lines: seq<Line>, isTime: string -> bool)
    requires Grouping(groups, lines, isTime)
    ensures groups == Groups(lines, isTime)
    decreases |lines|
  {
    if groups != [] {
      ShrunkGrouping(groups, lines, isTime);
      GroupingIsUnique(Shrunk(groups), lines[..|lines| - 1], isTime);
    }
  }

  /** A line that is a JSON object is always an entry of its own. */
  lemma {:induction false} ObjectLineIsAnEntry(lines: seq<Line>, i: nat, v: Json, isTime: string -> bool) returns (g: nat)
    requires i < |lines| && v.Object? && Proper(v) && TrimSpace(lines[i].message) == Render(v)
    ensures g < |Groups(lines, isTime)| && Groups(lines, isTime)[g] == [lines[i]]
  {
    hide ShouldMerge, Joined, Render, TrimSpace;
    var init, line := lines[..|lines| - 1], lines[|lines| - 1];
    var before := Groups(init, isTime);
    if i == |lines| - 1 {
      g := |before|;
      if g > 0 {
        ObjectLineStandsAlone(line.message, v, Joined(before[g - 1]), isTime);
      }
    } else {
      g := ObjectLineIsAnEntry(init, i, v, isTime);
      JoinedOne(lines[i]);
      ObjectLineStandsAlone(lines[i].message, v, line.message, isTime);
    }
  }

  /** A block whose brackets stay open before each of its later lines is one entry. */
  lemma OpenBlockIsOneEntry(block: seq<Line>, isTime: string -> bool)
    requires block != []
    requires forall j :: 1 <= j < |block| ==> Depth(Joined(block[..j])) > 0 && Follows(block[j].message, isTime)
    ensures Groups(block, isTime) == [block]
  {
    hide ShouldMerge, Joined, Depth, Follows, Grouping, Groups;
    forall j | 1 <= j < |block| ensures ShouldMerge(Joined(block[..j]), block[j].message, isTime) {
      OpenTextTakesIn(Joined(block[..j]), block[j].message, isTime);
    }
    OneGroup(block, isTime);
    GroupingIsUnique([block], block, isTime);
  }

  lemma OneGroup(block: seq<Line>, isTime: string -> bool)
    requires block != []
    requires forall j :: 1 <= j < |block| ==> ShouldMerge(Joined(block[..j]), block[j].message, isTime)
    ensures Grouping([block], block, isTime)
  {
    hide ShouldMerge, Joined;
    FlattenSnoc([], block);
    assert [] + [block] == [block] && [] + block == block;
  }

  /** A call printed over three lines comes out as one text with the time of its first
      line, or the present time when that line has none. */
  lemma PrintedBlock(t: Time, now: Time, isTime: string -> bool)
    ensures var block := [Line(t, "got {"), Line(t + 1, " id: 7"), Line(t + 2, "}\r")];
            Entries(Groups(Kept(block), isTime), now) == [Line(if t == 0 then now else t, "got {\n id: 7\n}")]
  {
    var a, b, c := Line(t, "got {"), Line(t + 1, " id: 7"), Line(t + 2, "}");
    PrintedLines(isTime);
    hide ShouldMerge, TrimSpace, TrimReturns, Depth, Follows, Joined, Groups, Kept, LogLines.IsBlank;
    var lines, block := [a, b, Line(t + 2, "}\r")], [a, b, c];
    assert Kept(lines) == block by {
      KeptSnoc(lines, 0);
      KeptSnoc(lines, 1);
      KeptSnoc(lines, 2);
      KeptNone();
      assert lines[..0] == [] && lines[..3] == lines;
    }
    assert block[..1] == [a] && block[..2] == [a] + [b] && block == block[..2] + [c];
    JoinedOne(a);
    JoinedMore([a], b);
    JoinedMore(block[..2], c);
    assert Joined(block[..2]) == "got {\n id: 7" && Joined(block) == "got {\n id: 7\n}";
    OpenBlockIsOneEntry(block, isTime);
  }

  lemma KeptNone()
    ensures Kept([]) == []
  {
  }

  lemma PrintedLines(isTime: string -> bool)
    ensures Depth("got {") == 1 && Depth("got {\n id: 7") == 1
    ensures Follows(" id: 7", isTime) && Follows("}", isTime)
    ensures TrimReturns("got {") == "got {" && TrimReturns(" id: 7") == " id: 7" && TrimReturns("}\r") == "}"
    ensures TrimSpace("got {") != "" && TrimSpace(" id: 7") != "" && TrimSpace("}") != ""
    ensures TrimSpace("got {\n id: 7\n}") == "got {\n id: 7\n}"
  {
    PrintedDepths();
    PrintedTrims();
  }

  lemma PrintedDepths()
    ensures Depth("got {") == 1 && Depth("got {\n id: 7") == 1
  {
    assert "got {" == "got " + "{" && "got {\n id: 7" == "got {" + "\n id: 7";
    assert Neutral("got ") && Neutral("\n id: 7");
    assert Step(Start, '{') == Scanner(1, Outside);
    hide Scan, Step, Neutral;
    NeutralScans(Start, "got ");
    ScanAppend(Start, "got ", "{");
    ScanOne(Start, '{');
    NeutralScans(Scanner(1, Outside), "\n id: 7");
    ScanAppend(Start, "got {", "\n id: 7");
  }

  lemma PrintedTrims()
    ensures TrimSpace("got {") == "got {" && TrimSpace(" id: 7") == "id: 7" && TrimSpace("}") == "}"
    ensures TrimSpace("got {\n id: 7\n}") == "got {\n id: 7\n}"
    ensures TrimReturns("got {") == "got {" && TrimReturns(" id: 7") == " id: 7" && TrimReturns("}\r") == "}"
  {
    assert " id: 7"[1..] == "id: 7" && "}\r"[..1] == "}";
    assert TrimLeft(" id: 7") == TrimLeft("id: 7") && TrimReturns("}\r") == TrimReturns("}");
  }

  // ---- reading overlapping tails ----

  /** What LogState keeps of the timestamps it is shown for one container. */
  function Fresh(last: Option<Time>, ts: seq<Time>): seq<Time>
    decreases |ts|
  {
    if ts == [] then []
    else if last.Some? && ts[0] <= last.value then Fresh(last, ts[1..])
    else [ts[0]] + Fresh(Some(ts[0]), ts[1..])
  }

  function LastOf(last: Option<Time>, ts: seq<Time>): Option<Time>
    decreases |ts|
  {
    if ts == [] then last
    else if last.Some? && ts[0] <= last.value then LastOf(last, ts[1..])
    else LastOf(Some(ts[0]), ts[1..])
  }

  class LogState {
    var lastSeen: map<string, Time>

    constructor ()
      ensures lastSeen == map[]
    {
      lastSeen := map[];
    }

    function Last(name: string): Option<Time>
      reads this
    {
      if name in lastSeen then Some(lastSeen[name]) else None
    }

    method ShouldKeep(name: string, ts: Time) returns (keep: bool)
      modifies this
      ensures keep <==> Fresh(old(Last(name)), [ts]) == [ts]
      ensures Last(name) == LastOf(old(Last(name)), [ts])
      ensures forall n :: n != name ==> Last(n) == old(Last(n))
    {
      if name in lastSeen && ts <= lastSeen[name] {
        return false;
      }
      lastSeen := lastSeen[name := ts];
      return true;
    }
  }

  lemma {:induction false} FreshAppend(last: Option<Time>, a: seq<Time>, b: seq<Time>)
    ensures Fresh(last, a + b) == Fresh(last, a) + Fresh(LastOf(last, a), b)
    ensures LastOf(last, a + b) == LastOf(LastOf(last, a), b)
    decreases |a|
  {
    if a == [] {
      assert a + b == b;
    } else {
      FreshAppend(if last.Some? && a[0] <= last.value then last else Some(a[0]), a[1..], b);
      assert (a + b)[1..] == a[1..] + b;
    }
  }

  ghost predicate Ascending(ts: seq<Time>) {
    forall i, j :: 0 <= i < j < |ts| ==> ts[i] < ts[j]
  }

  lemma {:induction false} AllFresh(last: Option<Time>, ts: seq<Time>)
    requires Ascending(ts) && (last.Some? && ts != [] ==> last.value < ts[0])
    ensures Fresh(last, ts) == ts
    ensures LastOf(last, ts) == if ts == [] then last else Some(ts[|ts| - 1])
    decreases |ts|
  {
    if ts != [] {
      AllFresh(Some(ts[0]), ts[1..]);
    }
  }

  lemma {:induction false} AllStale(last: Time, ts: seq<Time>)
    requires forall i :: 0 <= i < |ts| ==> ts[i] <= last
    ensures Fresh(Some(last), ts) == [] && LastOf(Some(last), ts) == Some(last)
  {
    if ts != [] {
      AllStale(last, ts[1..]);
    }
  }

  /** What is kept ascends, from after the last kept time on. */
  lemma {:induction false} FreshAscends(last: Option<Time>, ts: seq<Time>)
    ensures Ascending(Fresh(last, ts))
    ensures last.Some? ==> forall i :: 0 <= i < |Fresh(last, ts)| ==> last.value < Fresh(last, ts)[i]
    decreases |ts|
  {
    if ts != [] {
      if last.Some? && ts[0] <= last.value {
        FreshAscends(last, ts[1..]);
      } else {
        FreshAscends(Some(ts[0]), ts[1..]);
      }
    }
  }

  /** A read loses no line if and only if its times strictly ascend and start after
      the last kept one: lines of one instant and lines out of order are lost. */
  lemma NothingLostExactly(last: Option<Time>, ts: seq<Time>)
    ensures Fresh(last, ts) == ts <==> Ascending(ts) && (last.Some? && ts != [] ==> last.value < ts[0])
  {
    FreshAscends(last, ts);
    if Ascending(ts) && (last.Some? && ts != [] ==> last.value < ts[0]) {
      AllFresh(last, ts);
    }
  }

  lemma {:induction false} LastIsGreatest(ts: seq<Time>)
    ensures ts == [] ==> LastOf(None, ts).None?
    ensures ts != [] ==> LastOf(None, ts).Some? && LastOf(None, ts).value in ts
    ensures forall i :: 0 <= i < |ts| && LastOf(None, ts).Some? ==> ts[i] <= LastOf(None, ts).value
  {
    if ts != [] {
      var init, t := ts[..|ts| - 1], ts[|ts| - 1];
      LastIsGreatest(init);
      assert ts == init + [t];
      FreshAppend(None, init, [t]);
      OneTime(LastOf(None, init), t);
      if init != [] {
        var i :| 0 <= i < |init| && init[i] == LastOf(None, init).value;
        assert ts[i] == init[i];
      }
    }
  }

  lemma OneTime(last: Option<Time>, t: Time)
    ensures Fresh(last, [t]) == if last.Some? && t <= last.value then [] else [t]
    ensures LastOf(last, [t]) == if last.Some? && t <= last.value then last else Some(t)
  {
    assert [t][1..] == [];
  }

  /** A line is kept if and only if it is later than every line before it, kept or not. */
  lemma KeptWhenLatestSoFar(ts: seq<Time>, i: nat)
    requires i < |ts|
    ensures Fresh(None, ts[..i + 1]) ==
            Fresh(None, ts[..i]) + (if forall j :: 0 <= j < i ==> ts[j] < ts[i] then [ts[i]] else [])
  {
    var init := ts[..i];
    assert ts[..i + 1] == init + [ts[i]];
    FreshAppend(None, init, [ts[i]]);
    LastIsGreatest(init);
    OneTime(LastOf(None, init), ts[i]);
    if init != [] {
      var k :| 0 <= k < |init| && init[k] == LastOf(None, init).value;
      assert ts[k] == init[k];
      assert forall j :: 0 <= j < i ==> init[j] == ts[j];
    }
  }

  /** Two reads whose tails overlap, a + b and then b + c, keep every event once if
      and only if the times of a + b + c strictly ascend. */
  lemma OverlapKeptOnce(a: seq<Time>, b: seq<Time>, c: seq<Time>)
    ensures Fresh(None, (a + b) + (b + c)) == a + b + c <==> Ascending(a + b + c)
  {
    FreshAscends(None, (a + b) + (b + c));
    if Ascending(a + b + c) {
      OverlapOfAscending(a, b, c);
    }
  }

  /** The part read again is dropped and what is new is kept. */
  lemma SecondRead(last: Time, b: seq<Time>, c: seq<Time>)
    requires Ascending(c) && (c != [] ==> last < c[0]) && forall i :: 0 <= i < |b| ==> b[i] <= last
    ensures Fresh(Some(last), b + c) == c
  {
    AllStale(last, b);
    AllFresh(Some(last), c);
    FreshAppend(Some(last), b, c);
    assert [] + c == c;
  }

  lemma OverlapOfAscending(a: seq<Time>, b: seq<Time>, c: seq<Time>)
    requires Ascending(a + b + c)
    ensures Fresh(None, (a + b) + (b + c)) == a + b + c
  {
    var first := a + b;
    Pieces(a, b, c);
    AllFresh(None, first);
    FreshAppend(None, first, b + c);
    hide Fresh, LastOf, Ascending;
    if first == [] {
      assert b + c == c;
      AllFresh(None, c);
    } else {
      SecondRead(first[|first| - 1], b, c);
    }
  }

  lemma Pieces(a: seq<Time>, b: seq<Time>, c: seq<Time>)
    requires Ascending(a + b + c)
    ensures Ascending(a + b) && Ascending(c)
    ensures a + b != [] ==> forall i :: 0 <= i < |b| ==> b[i] <= (a + b)[|a + b| - 1]
    ensures a + b != [] && c != [] ==> (a + b)[|a + b| - 1] < c[0]
  {
    var first, all := a + b, a + b + c;
    assert forall i :: 0 <= i < |first| ==> first[i] == all[i];
    assert forall i :: 0 <= i < |c| ==> c[i] == all[|first| + i];
    assert forall i :: 0 <= i < |b| ==> b[i] == first[|a| + i];
  }

  /** Events of one and the same instant are kept only once, whatever they say. */
  lemma SameInstantLosesLines(t: Time, n: nat)
    requires n >= 1
    ensures Fresh(None, seq(n, i => t)) == [t]
  {
    var ts := seq(n, i => t);
    AllStale(t, ts[1..]);
  }
}
