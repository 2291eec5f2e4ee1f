/** Building and binding queries: '?' marks become $1, $2, ... and every log
    filter produces as many marks as arguments, in the same order. */
module QueryBinding {
  import opened Wrappers
  import opened Text

  // ---- binding ----

  /** A character of the query after n marks. */
  function One(c: char, n: nat): string {
    if c == '?' then "$" + Decimal(n + 1) else [c]
  }

  /** The marks seen after one more character. */
  function Next(c: char, n: nat): nat {
    if c == '?' then n + 1 else n
  }

  /** The query text from the n-th mark on. */
  function Bound(query: string, n: nat): string {
    if query == "" then "" else One(query[0], n) + Bound(query[1..], Next(query[0], n))
  }

  function Marks(query: string): nat {
    if query == "" then 0 else Next(query[0], 0) + Marks(query[1..])
  }

  lemma {:induction false} MarksAppend(a: string, b: string)
    ensures Marks(a + b) == Marks(a) + Marks(b)
  {
    if a == "" {
      assert a + b == b;
    } else {
      MarksAppend(a[1..], b);
      assert (a + b)[1..] == a[1..] + b;
    }
  }

  lemma {:induction false} BoundAppend(a: string, b: string, n: nat)
    ensures Bound(a + b, n) == Bound(a, n) + Bound(b, n + Marks(a))
  {
    hide One;
    if a == "" {
      assert a + b == b;
    } else {
      var rest, m := a[1..], Next(a[0], n);
      BoundAppend(rest, b, m);
      assert (a + b)[1..] == rest + b && (a + b)[0] == a[0];
      assert Bound(a + b, n) == One(a[0], n) + Bound(rest + b, m);
      assert Bound(a, n) == One(a[0], n) + Bound(rest, m);
      assert n + Marks(a) == m + Marks(rest);
      hide Bound, Marks;
    }
  }

  lemma {:induction false} NoMarks(query: string, n: nat)
    requires '?' !in query
    ensures Bound(query, n) == query && Marks(query) == 0
  {
    if query != "" {
      NoMarks(query[1..], n);
    }
  }

  lemma BoundOne(c: char, n: nat)
    ensures Bound([c], n) == if c == '?' then "$" + Decimal(n + 1) else [c]
    ensures Marks([c]) == if c == '?' then 1 else 0
  {
    assert [c][1..] == "";
  }

  /** bind. */
  method Bind(query: string) returns (text: string)
    ensures text == Bound(query, 0)
  {
    if '?' !in query {
      NoMarks(query, 0);
      return query;
    }
    hide Bound, Marks, One, Decimal;
    NoMarks("", 0);
    text := "";
    var n := 0;
    for i := 0 to |query|
      invariant n == Marks(query[..i]) && text == Bound(query[..i], 0)
    {
      var r := query[i];
      assert query[..i + 1] == query[..i] + [r];
      MarksAppend(query[..i], [r]);
      BoundAppend(query[..i], [r], 0);
      BoundOne(r, n);
      if r == '?' {
        n := n + 1;
        text := text + ("$" + Decimal(n));
        continue;
      }
      text := text + [r];
    }
    assert query[..|query|] == query;
  }

  // ---- reading a bound query back ----

  predicate StartsWithDigit(s: string) {
    s != "" && IsDigit(s[0])
  }

  /** How many digits a text starts with. */
  function DigitsAt(s: string): (n: nat)
    ensures n <= |s| && AllDigits(s[..n]) && !StartsWithDigit(s[n..])
    ensures StartsWithDigit(s) <==> n > 0
  {
    if !StartsWithDigit(s) then 0
    else
      var n := DigitsAt(s[1..]);
      assert s[..n + 1] == [s[0]] + s[1..][..n];
      n + 1
  }

  /** Every dollar sign with a number becomes a mark again. */
  function Unbound(s: string): string
    decreases |s|
  {
    if s == "" then ""
    else if s[0] == '$' && StartsWithDigit(s[1..]) then "?" + Unbound(s[1..][DigitsAt(s[1..])..])
    else [s[0]] + Unbound(s[1..])
  }

  /** The numbers after the dollar signs, in order. */
  function Numbers(s: string): seq<nat>
    decreases |s|
  {
    if s == "" then []
    else if s[0] == '$' && StartsWithDigit(s[1..]) then
      var n := DigitsAt(s[1..]);
      [Value(s[1..][..n])] + Numbers(s[1..][n..])
    else Numbers(s[1..])
  }

  /** No digit stands right after a mark or a dollar sign. */
  predicate Clean(s: string) {
    forall i :: 0 <= i < |s| - 1 && (s[i] == '?' || s[i] == '$') ==> !IsDigit(s[i + 1])
  }

  lemma {:induction false} BoundStart(query: string, n: nat)
    ensures StartsWithDigit(Bound(query, n)) <==> StartsWithDigit(query)
    ensures '?' !in Bound(query, n)
  {
    hide Decimal;
    if query != "" {
      if query[0] == '?' {
        BoundStart(query[1..], n + 1);
        assert AllDigits(Decimal(n + 1));
      } else {
        BoundStart(query[1..], n);
      }
    }
  }

  lemma {:induction false} DigitsThen(digits: string, rest: string)
    requires AllDigits(digits) && !StartsWithDigit(rest)
    ensures DigitsAt(digits + rest) == |digits|
  {
    if digits == "" {
      assert digits + rest == rest;
    } else {
      DigitsThen(digits[1..], rest);
      assert (digits + rest)[1..] == digits[1..] + rest;
    }
  }

  /** Digits in front of the rest are read as one number. */
  lemma DigitsInFront(d: string, rest: string)
    requires d != "" && AllDigits(d) && !StartsWithDigit(rest)
    ensures Unbound("$" + d + rest) == "?" + Unbound(rest)
    ensures Numbers("$" + d + rest) == [Value(d)] + Numbers(rest)
  {
    hide Value, DigitsAt;
    var s, t := "$" + d + rest, d + rest;
    DigitsThen(d, rest);
    assert s[0] == '$' && s[1..] == t && t[0] == d[0];
    assert t[..|d|] == d && t[|d|..] == rest;
  }

  /** A number in front of the rest of a bound query is read as itself. */
  lemma NumberInFront(n: nat, rest: string)
    requires !StartsWithDigit(rest)
    ensures var s := "$" + Decimal(n) + rest;
            Unbound(s) == "?" + Unbound(rest) && Numbers(s) == [n] + Numbers(rest)
  {
    ValueOfPad(n, Width(n));
    assert Value(Decimal(n)) == n;
    hide Decimal, Value, Unbound, Numbers;
    DigitsInFront(Decimal(n), rest);
  }

  lemma CleanTail(query: string)
    requires Clean(query) && query != ""
    ensures Clean(query[1..]) && (query[0] == '?' || query[0] == '$' ==> !StartsWithDigit(query[1..]))
  {
    var rest := query[1..];
    assert forall i :: 0 <= i < |rest| ==> rest[i] == query[i + 1];
  }

  /** A character that is no mark is copied, and read back as itself. */
  lemma PlainInFront(c: char, rest: string)
    requires c != '?' && (c == '$' ==> !StartsWithDigit(rest))
    ensures Unbound([c] + rest) == [c] + Unbound(rest) && Numbers([c] + rest) == Numbers(rest)
  {
    assert ([c] + rest)[1..] == rest;
  }

  lemma CountsShift(n: nat, k: nat)
    ensures seq(k + 1, i => n + i + 1) == [n + 1] + seq(k, i => (n + 1) + i + 1)
  {
  }

  lemma {:induction false} CleanRoundTrip(query: string, n: nat)
    requires Clean(query)
    ensures Unbound(Bound(query, n)) == query
    ensures Numbers(Bound(query, n)) == seq(Marks(query), i => n + i + 1)
  {
    if query != "" {
      var c, rest := query[0], query[1..];
      var m := Next(c, n);
      var tail := Bound(rest, m);
      CleanTail(query);
      CleanRoundTrip(rest, m);
      BoundStart(rest, m);
      assert query == [c] + rest && Bound(query, n) == One(c, n) + tail && Marks(query) == Next(c, 0) + Marks(rest);
      hide Unbound, Numbers, Bound, Marks, Clean, Decimal;
      if c == '?' {
        NumberInFront(n + 1, tail);
        CountsShift(n, Marks(rest));
      } else {
        PlainInFront(c, tail);
      }
    }
  }

  lemma {:induction false} UnboundIsClean(s: string)
    requires '?' !in s
    ensures Clean(Unbound(s)) && (StartsWithDigit(Unbound(s)) <==> StartsWithDigit(s))
    decreases |s|
  {
    if s != "" {
      var t := s[1..];
      if s[0] == '$' && StartsWithDigit(t) {
        var rest := t[DigitsAt(t)..];
        UnboundIsClean(rest);
        PrependClean('?', Unbound(rest));
      } else {
        UnboundIsClean(t);
        PrependClean(s[0], Unbound(t));
      }
    }
  }

  lemma PrependClean(c: char, s: string)
    requires Clean(s) && (c == '?' || c == '$' ==> !StartsWithDigit(s))
    ensures Clean([c] + s)
  {
    var t := [c] + s;
    assert forall i :: 1 <= i < |t| ==> t[i] == s[i - 1];
  }

  /** Erasing the numbers restores the query if and only if no digit follows a mark
      or a dollar sign in it. */
  lemma BindRoundTripExactly(query: string)
    ensures Unbound(Bound(query, 0)) == query <==> Clean(query)
  {
    if Clean(query) {
      CleanRoundTrip(query, 0);
    } else {
      BoundStart(query, 0);
      UnboundIsClean(Bound(query, 0));
    }
  }

  // ---- log filters ----

  datatype Arg = Text(s: string) | Number(n: int)

  /** A filter; times are already formatted, and `patterns` are the search patterns
      of the trace id, which only a non-empty id has. */
  datatype Filter = Filter(since: string, until: Option<string>, query: string, entity: string, container: string,
                           level: string, topic: string, traceId: string, patterns: seq<string>,
                           containers: seq<string>, limit: int, offset: int)

  /** One condition of the clause with its own arguments. */
  datatype Condition = Condition(text: string, args: seq<Arg>)

  function Alternatives(piece: string, n: nat): string {
    if n == 0 then "" else if n == 1 then piece else Alternatives(piece, n - 1) + (Say(Or) + piece)
  }

  function Around(s: string): string {
    "%" + s + "%"
  }

  function AtEnd(s: string): string {
    "%:" + s
  }

  function AmongTopics(s: string): string {
    "%\"topics\":%\"" + s + "\"%"
  }

  function Twice(ps: seq<string>): seq<Arg> {
    if ps == [] then [] else Twice(ps[..|ps| - 1]) + [Text(ps[|ps| - 1]), Text(ps[|ps| - 1])]
  }

  function Suffixed(cs: seq<string>): seq<Arg> {
    if cs == [] then [] else Suffixed(cs[..|cs| - 1]) + [Text(AtEnd(cs[|cs| - 1]))]
  }

  /** The fixed words of a clause. */
  datatype Word = From | Until | Message | Entity | EntityLike | Level | Fields | OrMessage
                | Open | Close | Or | And | Limit | Offset

  function Say(w: Word): string {
    match w
    case From => "ts >= "
    case Until => "ts <= "
    case Message => "message ILIKE "
    case Entity => "entity_uid="
    case EntityLike => "entity_uid LIKE "
    case Level => "level="
    case Fields => "fields_json LIKE "
    case OrMessage => " OR message LIKE "
    case Open => "("
    case Close => ")"
    case Or => " OR "
    case And => " AND "
    case Limit => " ORDER BY ts DESC LIMIT "
    case Offset => " OFFSET "
  }

  /** A mark after some words. */
  function Asks(w: Word): string {
    Say(w) + "?"
  }

  function Parens(s: string): string {
    Say(Open) + (s + Say(Close))
  }

  function TracePiece(): string {
    Parens(Asks(Fields) + Asks(OrMessage))
  }

  function Tail(): string {
    Asks(Limit) + Asks(Offset)
  }

  function When(on: bool, text: string, args: seq<Arg>): seq<Condition> {
    if on then [Condition(text, args)] else []
  }

  /** The conditions on time and origin a filter asks for. */
  function OriginConditions(f: Filter): seq<Condition> {
    [Condition(Asks(From), [Text(f.since)])]
    + When(f.until.Some?, Asks(Until), [Text(f.until.GetOr(""))])
    + When(f.query != "", Asks(Message), [Text(Around(f.query))])
    + When(f.entity != "", Asks(Entity), [Text(f.entity)])
    + When(f.container != "", Asks(EntityLike), [Text(AtEnd(f.container))])
  }

  /** All conditions a filter asks for. */
  function Conditions(f: Filter): seq<Condition> {
    OriginConditions(f)
    + When(f.level != "" && f.level != "all", Asks(Level), [Text(f.level)])
    + When(f.topic != "" && f.topic != "all", Asks(Fields), [Text(AmongTopics(f.topic))])
    + When(f.traceId != "" && f.patterns != [], Parens(Alternatives(TracePiece(), |f.patterns|)), Twice(f.patterns))
    + When(f.containers != [], Parens(Alternatives(Asks(EntityLike), |f.containers|)), Suffixed(f.containers))
  }

  function Clause(cs: seq<Condition>): string {
    if cs == [] then ""
    else if |cs| == 1 then cs[0].text
    else Clause(cs[..|cs| - 1]) + (Say(And) + cs[|cs| - 1].text)
  }

  function ArgsOf(cs: seq<Condition>): seq<Arg> {
    if cs == [] then [] else ArgsOf(cs[..|cs| - 1]) + cs[|cs| - 1].args
  }

  /** One more condition: its text and its arguments go to the end together. */
  method Append(on: bool, clause: string, args: seq<Arg>, ghost cs: seq<Condition>, text: string, given: seq<Arg>)
    returns (longer: string, more: seq<Arg>, ghost all: seq<Condition>)
    requires cs != [] && clause == Clause(cs) && args == ArgsOf(cs)
    ensures all != [] && all == cs + When(on, text, given) && longer == Clause(all) && more == ArgsOf(all)
  {
    longer, more, all := clause, args, cs + When(on, text, given);
    if on {
      longer := longer + (Say(And) + text);
      more := more + given;
      assert all[..|all| - 1] == cs;
    } else {
      assert all == cs;
    }
  }

  /** logWhere, as far as time, text and origin. */
  method OriginWhere(f: Filter) returns (clause: string, args: seq<Arg>, ghost cs: seq<Condition>)
    ensures cs == OriginConditions(f) && cs != [] && clause == Clause(cs) && args == ArgsOf(cs)
  {
    hide Clause, ArgsOf, When, Asks, Around, AtEnd;
    clause, args := Asks(From), [Text(f.since)];
    cs := [Condition(clause, args)];
    OneCondition(cs[0]);
    clause, args, cs := Append(f.until.Some?, clause, args, cs, Asks(Until), [Text(f.until.GetOr(""))]);
    clause, args, cs := Append(f.query != "", clause, args, cs, Asks(Message), [Text(Around(f.query))]);
    clause, args, cs := Append(f.entity != "", clause, args, cs, Asks(Entity), [Text(f.entity)]);
    clause, args, cs := Append(f.container != "", clause, args, cs, Asks(EntityLike), [Text(AtEnd(f.container))]);
  }

  /** logWhere. */
  method LogWhere(f: Filter) returns (clause: string, args: seq<Arg>)
    ensures clause == Clause(Conditions(f)) && args == ArgsOf(Conditions(f))
  {
    hide Clause, ArgsOf, Alternatives, Twice, Suffixed, When, Asks, Parens, TracePiece, AmongTopics, OriginConditions;
    ghost var cs;
    clause, args, cs := OriginWhere(f);
    clause, args, cs := Append(f.level != "" && f.level != "all", clause, args, cs, Asks(Level), [Text(f.level)]);
    clause, args, cs := Append(f.topic != "" && f.topic != "all", clause, args, cs, Asks(Fields), [Text(AmongTopics(f.topic))]);
    var text, given := TraceCondition(f.patterns);
    clause, args, cs := Append(f.traceId != "" && f.patterns != [], clause, args, cs, text, given);
    text, given := ContainerCondition(f.containers);
    clause, args, cs := Append(f.containers != [], clause, args, cs, text, given);
  }

  method TraceCondition(patterns: seq<string>) returns (text: string, given: seq<Arg>)
    ensures text == Parens(Alternatives(TracePiece(), |patterns|)) && given == Twice(patterns)
  {
    hide Say, Parens, TracePiece;
    text, given := "", [];
    for i := 0 to |patterns|
      invariant text == Alternatives(TracePiece(), i) && given == Twice(patterns[..i])
    {
      assert patterns[..i + 1][..i] == patterns[..i];
      if i > 0 {
        text := text + (Say(Or) + TracePiece());
      } else {
        text := TracePiece();
      }
      given := given + [Text(patterns[i]), Text(patterns[i])];
    }
    assert patterns[..|patterns|] == patterns;
    text := Parens(text);
  }

  method ContainerCondition(containers: seq<string>) returns (text: string, given: seq<Arg>)
    ensures text == Parens(Alternatives(Asks(EntityLike), |containers|)) && given == Suffixed(containers)
  {
    hide Say, Asks, Parens;
    text, given := "", [];
    for i := 0 to |containers|
      invariant text == Alternatives(Asks(EntityLike), i) && given == Suffixed(containers[..i])
    {
      assert containers[..i + 1][..i] == containers[..i];
      if i > 0 {
        text := text + (Say(Or) + Asks(EntityLike));
      } else {
        text := Asks(EntityLike);
      }
      given := given + [Text(AtEnd(containers[i]))];
    }
    assert containers[..|containers|] == containers;
    text := Parens(text);
  }

  lemma OneCondition(c: Condition)
    ensures Clause([c]) == c.text && ArgsOf([c]) == c.args
  {
    assert [c][..0] == [];
  }

  // ---- every mark has its argument ----

  /** Text that can follow any other text and stay clean. */
  predicate Fits(s: string) {
    Clean(s) && !StartsWithDigit(s)
  }

  lemma FitsAppend(a: string, b: string)
    requires Fits(a) && Fits(b)
    ensures Fits(a + b)
  {
    var t := a + b;
    forall i | 0 <= i < |t| - 1 && (t[i] == '?' || t[i] == '$') ensures !IsDigit(t[i + 1]) {
      if i + 1 < |a| {
        assert t[i] == a[i] && t[i + 1] == a[i + 1];
      } else if i + 1 == |a| {
        assert t[i + 1] == b[0];
      } else {
        assert t[i] == b[i - |a|] && t[i + 1] == b[i + 1 - |a|];
      }
    }
    assert t != "" ==> t[0] == if a != "" then a[0] else b[0];
  }

  /** A piece of query text without marks or dollar signs. */
  lemma PlainPiece(s: string)
    requires '?' !in s && '$' !in s && !StartsWithDigit(s)
    ensures Fits(s) && Marks(s) == 0
  {
    NoMarks(s, 0);
    assert forall i :: 0 <= i < |s| ==> s[i] in s;
  }

  lemma AMark()
    ensures Fits("?") && Marks("?") == 1
  {
    BoundOne('?', 0);
  }

  lemma Joined(a: string, b: string)
    requires Fits(a) && Fits(b)
    ensures Fits(a + b) && Marks(a + b) == Marks(a) + Marks(b)
  {
    FitsAppend(a, b);
    MarksAppend(a, b);
  }

  predicate Short(w: Word) {
    w.From? || w.Until? || w.Message? || w.Entity? || w.EntityLike? || w.Level?
    || w.Open? || w.Close? || w.Or? || w.And? || w.Offset?
  }

  lemma ShortWords(w: Word)
    requires Short(w)
    ensures '?' !in Say(w) && '$' !in Say(w) && !StartsWithDigit(Say(w))
  {
  }

  lemma LongWords(w: Word)
    requires !Short(w) && !w.Limit?
    ensures '?' !in Say(w) && '$' !in Say(w) && !StartsWithDigit(Say(w))
  {
  }

  lemma LongestWords()
    ensures '?' !in Say(Limit) && '$' !in Say(Limit) && !StartsWithDigit(Say(Limit))
  {
  }

  lemma WordsArePlain(w: Word)
    ensures Fits(Say(w)) && Marks(Say(w)) == 0
  {
    if Short(w) {
      ShortWords(w);
    } else if w.Limit? {
      LongestWords();
    } else {
      LongWords(w);
    }
    hide Say;
    PlainPiece(Say(w));
  }

  lemma OneMark(w: Word)
    ensures Fits(Asks(w)) && Marks(Asks(w)) == 1
  {
    hide Fits, Marks, Say;
    WordsArePlain(w);
    AMark();
    Joined(Say(w), "?");
  }

  lemma {:induction false} AlternativesFit(piece: string, each: nat, n: nat)
    requires Fits(piece) && Marks(piece) == each
    ensures Fits(Alternatives(piece, n)) && Marks(Alternatives(piece, n)) == n * each
  {
    hide Fits, Marks, Say;
    if n == 0 {
      Nothing();
    } else if n > 1 {
      AlternativesFit(piece, each, n - 1);
      WordsArePlain(Or);
      Joined(Say(Or), piece);
      Joined(Alternatives(piece, n - 1), Say(Or) + piece);
      assert n * each == (n - 1) * each + each;
    }
  }

  lemma Nothing()
    ensures Fits("") && Marks("") == 0
  {
  }

  lemma Parenthesised(s: string)
    requires Fits(s)
    ensures Fits(Parens(s)) && Marks(Parens(s)) == Marks(s)
  {
    hide Fits, Marks, Say;
    WordsArePlain(Open);
    WordsArePlain(Close);
    Joined(s, Say(Close));
    Joined(Say(Open), s + Say(Close));
  }

  lemma TwoMarks(v: Word, w: Word)
    ensures Fits(Asks(v) + Asks(w)) && Marks(Asks(v) + Asks(w)) == 2
  {
    hide Fits, Marks, Asks;
    OneMark(v);
    OneMark(w);
    Joined(Asks(v), Asks(w));
  }

  lemma {:induction false} ArgCounts(ps: seq<string>)
    ensures |Twice(ps)| == 2 * |ps| && |Suffixed(ps)| == |ps|
  {
    if ps != [] {
      ArgCounts(ps[..|ps| - 1]);
    }
  }

  /** As many marks as arguments, and safe to bind. */
  predicate Matched(c: Condition) {
    Fits(c.text) && Marks(c.text) == |c.args|
  }

  ghost predicate AllMatched(cs: seq<Condition>) {
    forall i :: 0 <= i < |cs| ==> Matched(cs[i])
  }

  lemma OneMoreMatched(cs: seq<Condition>, on: bool, text: string, args: seq<Arg>)
    requires AllMatched(cs) && (on ==> Matched(Condition(text, args)))
    ensures AllMatched(cs + When(on, text, args))
  {
    hide Matched;
  }

  lemma AskedOnce(w: Word, a: Arg)
    ensures Matched(Condition(Asks(w), [a]))
  {
    OneMark(w);
  }

  lemma ListMatched(piece: string, each: nat, n: nat, args: seq<Arg>)
    requires Fits(piece) && Marks(piece) == each && |args| == n * each
    ensures Matched(Condition(Parens(Alternatives(piece, n)), args))
  {
    hide Fits, Marks, Parens, Alternatives;
    AlternativesFit(piece, each, n);
    Parenthesised(Alternatives(piece, n));
  }

  lemma ListsMatched(f: Filter)
    ensures Matched(Condition(Parens(Alternatives(TracePiece(), |f.patterns|)), Twice(f.patterns)))
    ensures Matched(Condition(Parens(Alternatives(Asks(EntityLike), |f.containers|)), Suffixed(f.containers)))
  {
    ArgCounts(f.patterns);
    ArgCounts(f.containers);
    hide Fits, Marks, Parens, Alternatives, Matched, Asks;
    TwoMarks(Fields, OrMessage);
    Parenthesised(Asks(Fields) + Asks(OrMessage));
    ListMatched(TracePiece(), 2, |f.patterns|, Twice(f.patterns));
    OneMark(EntityLike);
    ListMatched(Asks(EntityLike), 1, |f.containers|, Suffixed(f.containers));
  }

  /** Every condition of every filter has exactly one argument for each of its marks. */
  lemma ConditionsMatch(f: Filter)
    ensures AllMatched(Conditions(f))
  {
    hide Around, AtEnd, AmongTopics, Matched, When, Asks, Parens, Alternatives, TracePiece, Twice, Suffixed, AllMatched;
    var until, query, entity := Text(f.until.GetOr("")), Text(Around(f.query)), Text(f.entity);
    var container, level, topic := Text(AtEnd(f.container)), Text(f.level), Text(AmongTopics(f.topic));
    AskedOnce(From, Text(f.since));
    AskedOnce(Until, until);
    AskedOnce(Message, query);
    AskedOnce(Entity, entity);
    AskedOnce(EntityLike, container);
    AskedOnce(Level, level);
    AskedOnce(Fields, topic);
    ListsMatched(f);
    var c0 := [Condition(Asks(From), [Text(f.since)])];
    OnlyOne(c0[0]);
    var c1 := c0 + When(f.until.Some?, Asks(Until), [until]);
    OneMoreMatched(c0, f.until.Some?, Asks(Until), [until]);
    var c2 := c1 + When(f.query != "", Asks(Message), [query]);
    OneMoreMatched(c1, f.query != "", Asks(Message), [query]);
    var c3 := c2 + When(f.entity != "", Asks(Entity), [entity]);
    OneMoreMatched(c2, f.entity != "", Asks(Entity), [entity]);
    var c4 := c3 + When(f.container != "", Asks(EntityLike), [container]);
    OneMoreMatched(c3, f.container != "", Asks(EntityLike), [container]);
    var c5 := c4 + When(f.level != "" && f.level != "all", Asks(Level), [level]);
    OneMoreMatched(c4, f.level != "" && f.level != "all", Asks(Level), [level]);
    var c6 := c5 + When(f.topic != "" && f.topic != "all", Asks(Fields), [topic]);
    OneMoreMatched(c5, f.topic != "" && f.topic != "all", Asks(Fields), [topic]);
    var traces := Parens(Alternatives(TracePiece(), |f.patterns|));
    var c7 := c6 + When(f.traceId != "" && f.patterns != [], traces, Twice(f.patterns));
    OneMoreMatched(c6, f.traceId != "" && f.patterns != [], traces, Twice(f.patterns));
    OneMoreMatched(c7, f.containers != [], Parens(Alternatives(Asks(EntityLike), |f.containers|)), Suffixed(f.containers));
  }

  lemma OnlyOne(c: Condition)
    requires Matched(c)
    ensures AllMatched([c])
  {
  }

  lemma {:induction false} ClauseMatches(cs: seq<Condition>)
    requires AllMatched(cs)
    ensures Fits(Clause(cs)) && Marks(Clause(cs)) == |ArgsOf(cs)|
  {
    hide Fits, Marks, Say;
    if cs == [] {
      Nothing();
    } else {
      var init, last := cs[..|cs| - 1], cs[|cs| - 1];
      assert Matched(last);
      assert ArgsOf(cs) == ArgsOf(init) + last.args;
      if |cs| == 1 {
        assert init == [];
      } else {
        ClauseMatches(init);
        WordsArePlain(And);
        Joined(Say(And), last.text);
        Joined(Clause(init), Say(And) + last.text);
      }
    }
  }

  /** SearchLogs: the query and the arguments it is run with. `select` is the list
      of columns and the table. */
  method SearchLogs(f: Filter, select: string) returns (text: string, args: seq<Arg>)
    requires '?' !in select && '$' !in select && !StartsWithDigit(select)
    ensures Numbers(text) == seq(|args|, i => i + 1)
    ensures Unbound(text) == select + (Clause(Conditions(f)) + Tail())
    ensures args == ArgsOf(Conditions(f)) + [Number(if f.limit <= 0 then 200 else f.limit), Number(if f.offset < 0 then 0 else f.offset)]
  {
    hide Clean, Marks, Conditions, Clause, Asks, Bound, Unbound, Numbers;
    var limit := f.limit;
    if limit <= 0 {
      limit := 200;
    }
    var offset := f.offset;
    if offset < 0 {
      offset := 0;
    }
    var clause;
    clause, args := LogWhere(f);
    var q := select + (clause + Tail());
    ConditionsMatch(f);
    ClauseMatches(Conditions(f));
    TwoMarks(Limit, Offset);
    PlainPiece(select);
    Joined(clause, Tail());
    Joined(select, clause + Tail());
    args := args + [Number(limit), Number(offset)];
    text := Bind(q);
    CleanRoundTrip(q, 0);
    assert seq(|args|, i => 0 + i + 1) == seq(|args|, i => i + 1);
  }

  /** What a filter searches for never enters the query text: only which fields are
      set, and how many alternatives there are, decide it. */
  predicate SameShape(f: Filter, g: Filter) {
    && (f.until.Some? <==> g.until.Some?) && (f.query != "" <==> g.query != "")
    && (f.entity != "" <==> g.entity != "") && (f.container != "" <==> g.container != "")
    && ((f.level != "" && f.level != "all") <==> (g.level != "" && g.level != "all"))
    && ((f.topic != "" && f.topic != "all") <==> (g.topic != "" && g.topic != "all"))
    && ((f.traceId != "" && f.patterns != []) <==> (g.traceId != "" && g.patterns != []))
    && |f.patterns| == |g.patterns| && |f.containers| == |g.containers|
  }

  ghost predicate SameTexts(cs: seq<Condition>, ds: seq<Condition>) {
    |cs| == |ds| && forall i :: 0 <= i < |cs| ==> cs[i].text == ds[i].text
  }

  lemma {:induction false} SameTextsSameClause(cs: seq<Condition>, ds: seq<Condition>)
    requires SameTexts(cs, ds)
    ensures Clause(cs) == Clause(ds)
  {
    if |cs| > 1 {
      SameTextsSameClause(cs[..|cs| - 1], ds[..|ds| - 1]);
    }
  }

  lemma SameTextsAppend(cs: seq<Condition>, ds: seq<Condition>, on: bool, text: string, a: seq<Arg>, b: seq<Arg>)
    requires SameTexts(cs, ds)
    ensures SameTexts(cs + When(on, text, a), ds + When(on, text, b))
  {
  }

  lemma TextIgnoresValues(f: Filter, g: Filter)
    requires SameShape(f, g)
    ensures Clause(Conditions(f)) == Clause(Conditions(g))
  {
    hide Clause, Alternatives, Twice, Suffixed, When, Asks, Parens, TracePiece, SameTexts;
    var c, d := Conditions(f), Conditions(g);
    SameConditions(f, g);
    SameTextsSameClause(c, d);
  }

  lemma SameConditions(f: Filter, g: Filter)
    requires SameShape(f, g)
    ensures SameTexts(Conditions(f), Conditions(g))
  {
    hide Around, AtEnd, AmongTopics, Alternatives, Twice, Suffixed, When, Asks, Parens, TracePiece, SameTexts;
    var c0, d0 := [Condition(Asks(From), [Text(f.since)])], [Condition(Asks(From), [Text(g.since)])];
    SameFirst(Asks(From), [Text(f.since)], [Text(g.since)]);
    var on := f.until.Some?;
    var a, b := [Text(f.until.GetOr(""))], [Text(g.until.GetOr(""))];
    SameTextsAppend(c0, d0, on, Asks(Until), a, b);
    c0, d0 := c0 + When(on, Asks(Until), a), d0 + When(on, Asks(Until), b);
    on, a, b := f.query != "", [Text(Around(f.query))], [Text(Around(g.query))];
    SameTextsAppend(c0, d0, on, Asks(Message), a, b);
    c0, d0 := c0 + When(on, Asks(Message), a), d0 + When(on, Asks(Message), b);
    on, a, b := f.entity != "", [Text(f.entity)], [Text(g.entity)];
    SameTextsAppend(c0, d0, on, Asks(Entity), a, b);
    c0, d0 := c0 + When(on, Asks(Entity), a), d0 + When(on, Asks(Entity), b);
    on, a, b := f.container != "", [Text(AtEnd(f.container))], [Text(AtEnd(g.container))];
    SameTextsAppend(c0, d0, on, Asks(EntityLike), a, b);
    c0, d0 := c0 + When(on, Asks(EntityLike), a), d0 + When(on, Asks(EntityLike), b);
    on, a, b := f.level != "" && f.level != "all", [Text(f.level)], [Text(g.level)];
    SameTextsAppend(c0, d0, on, Asks(Level), a, b);
    c0, d0 := c0 + When(on, Asks(Level), a), d0 + When(on, Asks(Level), b);
    on, a, b := f.topic != "" && f.topic != "all",
      [Text(AmongTopics(f.topic))], [Text(AmongTopics(g.topic))];
    SameTextsAppend(c0, d0, on, Asks(Fields), a, b);
    c0, d0 := c0 + When(on, Asks(Fields), a), d0 + When(on, Asks(Fields), b);
    on, a, b := f.traceId != "" && f.patterns != [], Twice(f.patterns), Twice(g.patterns);
    var text := Parens(Alternatives(TracePiece(), |f.patterns|));
    SameTextsAppend(c0, d0, on, text, a, b);
    c0, d0 := c0 + When(on, text, a), d0 + When(on, text, b);
    SameTextsAppend(c0, d0, f.containers != [], Parens(Alternatives(Asks(EntityLike), |f.containers|)),
      Suffixed(f.containers), Suffixed(g.containers));
  }

  lemma SameFirst(text: string, a: seq<Arg>, b: seq<Arg>)
    ensures SameTexts([Condition(text, a)], [Condition(text, b)])
  {
  }

  // ---- the words of the clause ----

  /** The conditions a filter stands for, as they are written. */
  predicate Wanted(f: Filter, c: Condition) {
    || c == Condition("ts >= ?", [Text(f.since)])
    || (f.until.Some? && c == Condition("ts <= ?", [Text(f.until.value)]))
    || (f.query != "" && c == Condition("message ILIKE ?", [Text("%" + f.query + "%")]))
    || (f.entity != "" && c == Condition("entity_uid=?", [Text(f.entity)]))
    || (f.container != "" && c == Condition("entity_uid LIKE ?", [Text("%:" + f.container)]))
    || (f.level !in {"", "all"} && c == Condition("level=?", [Text(f.level)]))
    || (f.topic !in {"", "all"} && c == Condition("fields_json LIKE ?", [Text("%\"topics\":%\"" + f.topic + "\"%")]))
    || (f.traceId != "" && f.patterns != [] && OneOf(c, "(fields_json LIKE ? OR message LIKE ?)", |f.patterns|) && c.args == Twice(f.patterns))
    || (f.containers != [] && OneOf(c, "entity_uid LIKE ?", |f.containers|) && c.args == Suffixed(f.containers))
  }

  /** n alternatives of one piece, in parentheses. */
  predicate OneOf(c: Condition, piece: string, n: nat) {
    c.text == "(" + (Alternatives(piece, n) + ")")
  }

  lemma OriginWords()
    ensures Asks(From) == "ts >= ?" && Asks(Until) == "ts <= ?" && Asks(Message) == "message ILIKE ?"
    ensures Asks(Entity) == "entity_uid=?" && Asks(EntityLike) == "entity_uid LIKE ?" && Asks(Level) == "level=?"
  {
  }

  lemma FieldWords()
    ensures Asks(Fields) == "fields_json LIKE ?" && Asks(OrMessage) == " OR message LIKE ?"
    ensures Say(Open) == "(" && Say(Close) == ")" && Say(Or) == " OR " && Say(And) == " AND "
  {
  }

  lemma TraceWords()
    ensures TracePiece() == "(fields_json LIKE ? OR message LIKE ?)"
  {
    FieldWords();
    hide Asks, Say;
    assert "fields_json LIKE ?" + " OR message LIKE ?" == "fields_json LIKE ? OR message LIKE ?";
    assert "(" + ("fields_json LIKE ? OR message LIKE ?" + ")") == "(fields_json LIKE ? OR message LIKE ?)";
  }

  lemma TailWords()
    ensures Tail() == " ORDER BY ts DESC LIMIT ? OFFSET ?"
  {
    assert Asks(Limit) == " ORDER BY ts DESC LIMIT ?" && Asks(Offset) == " OFFSET ?";
    hide Asks;
    assert " ORDER BY ts DESC LIMIT ?" + " OFFSET ?" == " ORDER BY ts DESC LIMIT ? OFFSET ?";
  }

  /** A search asks for exactly the conditions its filter stands for. */
  lemma ConditionsInWords(f: Filter)
    ensures forall c :: c in Conditions(f) <==> Wanted(f, c)
  {
    OriginWords();
    FieldWords();
    TraceWords();
    hide Asks, Say, TracePiece, Alternatives, Twice, Suffixed;
    var origin := OriginConditions(f);
    forall c ensures c in Conditions(f) <==> Wanted(f, c) {
    }
  }

  /** Conditions are joined by AND and alternatives by OR, in order. */
  lemma JoinedInWords(cs: seq<Condition>, c: Condition, piece: string, n: nat)
    ensures Clause([c]) == c.text && (cs != [] ==> Clause(cs + [c]) == Clause(cs) + (" AND " + c.text))
    ensures Alternatives(piece, 1) == piece && (n > 0 ==> Alternatives(piece, n + 1) == Alternatives(piece, n) + (" OR " + piece))
  {
    FieldWords();
    hide Say;
    assert (cs + [c])[..|cs|] == cs;
  }

  /** Every trace pattern is searched for in the fields and in the message, every
      container as the end of an entity, in the order given. */
  lemma {:induction false} ListedArguments(ss: seq<string>)
    ensures |Twice(ss)| == 2 * |ss| && |Suffixed(ss)| == |ss|
    ensures forall i :: 0 <= i < |ss| ==> Twice(ss)[2 * i] == Text(ss[i]) && Twice(ss)[2 * i + 1] == Text(ss[i])
    ensures forall i :: 0 <= i < |ss| ==> Suffixed(ss)[i] == Text("%:" + ss[i])
  {
    if ss != [] {
      var init, last := ss[..|ss| - 1], ss[|ss| - 1];
      ListedArguments(init);
      var twice, suffixed := Twice(init), Suffixed(init);
      assert Twice(ss) == twice + [Text(last), Text(last)] && Suffixed(ss) == suffixed + [Text("%:" + last)];
      hide Twice, Suffixed;
      forall i | 0 <= i < |ss| ensures Twice(ss)[2 * i] == Text(ss[i]) && Twice(ss)[2 * i + 1] == Text(ss[i]) {
        if i < |init| {
          assert Twice(ss)[2 * i] == twice[2 * i] && Twice(ss)[2 * i + 1] == twice[2 * i + 1] && init[i] == ss[i];
        }
      }
    }
  }
}
