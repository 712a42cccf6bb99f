/** The call-argument scanner of `checkRaw` (scripts/audit/phase3-prisma-source-contract.js).

    Having matched `SELECT f(`, the linter must find the parenthesis that closes the call, past
    nested parentheses and quoted tokens.  `Args` is the grammar of an argument list, `Print` its
    text, and `ScanCall` the loop of the source.  The loop is proved against the grammar on every
    input: it stops just behind the closing parenthesis when there is one, and at the end of the
    text when there is none. */
module Scanner {

  import opened Wrappers

  /** The text between the parentheses of a call, up to the one that closes it. */
  datatype Args =
    | Nil
    | Plain(c: char, more: Args)
    | Quoted(quote: char, body: string, more: Args)
    | Group(inner: Args, more: Args)

  predicate IsQuote(c: char) {
    c == '\'' || c == '"'
  }

  predicate WellFormed(a: Args) {
    match a
    case Nil => true
    case Plain(c, more) => c != '\'' && c != '"' && c != '(' && c != ')' && WellFormed(more)
    case Quoted(q, _, more) => (q == '\'' || q == '"') && WellFormed(more)
    case Group(inner, more) => WellFormed(inner) && WellFormed(more)
  }

  /** A quote inside a quoted token is written twice. */
  function Escape(body: string, q: char): string {
    if body == [] then []
    else (if body[0] == q then [q, q] else [body[0]]) + Escape(body[1..], q)
  }

  function Print(a: Args): string {
    match a
    case Nil => []
    case Plain(c, more) => [c] + Print(more)
    case Quoted(q, body, more) => [q] + Escape(body, q) + [q] + Print(more)
    case Group(inner, more) => ['('] + Print(inner) + [')'] + Print(more)
  }

  /** `a` is the argument list of the call whose opening parenthesis precedes `text`. */
  ghost predicate Closes(text: string, a: Args) {
    WellFormed(a) && Print(a) + [')'] <= text
  }

  // ----- A scanner without lookahead -----
  //
  // Inside a quoted token every quote is treated as the end of the token, so that an escaped
  // quote closes the token and opens it again.

  datatype State = State(depth: nat, quote: Option<char>)

  const OPENED := State(1, None)

  function Step(s: State, c: char): State
    requires s.depth > 0
  {
    match s.quote
    case Some(q) => if c == q then s.(quote := None) else s
    case None =>
      if IsQuote(c) then s.(quote := Some(c))
      else if c == '(' then s.(depth := s.depth + 1)
      else if c == ')' then s.(depth := s.depth - 1)
      else s
  }

  /** The state behind `text`, unless the call is closed within it. */
  function Feed(text: string, s: State): Option<State>
    requires s.depth > 0
  {
    if text == [] then Some(s)
    else
      var next := Step(s, text[0]);
      if next.depth == 0 then None else Feed(text[1..], next)
  }

  lemma {:induction false} FeedConcat(a: string, b: string, s: State)
    requires s.depth > 0
    ensures Feed(a + b, s) == match Feed(a, s) case None => None case Some(t) => if t.depth > 0 then Feed(b, t) else None
    ensures Feed(a, s).Some? ==> Feed(a, s).value.depth > 0
  {
    if a == [] {
      assert a + b == b;
    } else {
      assert (a + b)[1..] == a[1..] + b;
      var next := Step(s, a[0]);
      if next.depth > 0 {
        FeedConcat(a[1..], b, next);
      }
    }
  }

  // ----- A printed argument list leaves the scanner where it was -----

  lemma {:induction false} FeedEscape(body: string, q: char, depth: nat)
    requires depth > 0 && IsQuote(q)
    ensures Feed(Escape(body, q), State(depth, Some(q))) == Some(State(depth, Some(q)))
  {
    if body != [] {
      FeedEscape(body[1..], q, depth);
      if body[0] == q {
        assert Feed([q, q], State(depth, Some(q))) == Feed([q], State(depth, None)) by {
          assert [q, q][1..] == [q];
        }
        FeedConcat([q, q], Escape(body[1..], q), State(depth, Some(q)));
      } else {
        FeedConcat([body[0]], Escape(body[1..], q), State(depth, Some(q)));
      }
    }
  }

  lemma {:induction false} FeedPrint(a: Args, depth: nat)
    requires WellFormed(a) && depth > 0
    ensures Feed(Print(a), State(depth, None)) == Some(State(depth, None))
    decreases a
  {
    var s := State(depth, None);
    match a
    case Nil =>
    case Plain(c, more) =>
      FeedPrint(more, depth);
      FeedConcat([c], Print(more), s);
    case Quoted(q, body, more) =>
      FeedPrint(more, depth);
      FeedEscape(body, q, depth);
      FeedConcat([q], Escape(body, q), s);
      FeedConcat([q] + Escape(body, q), [q], s);
      FeedConcat([q] + Escape(body, q) + [q], Print(more), s);
    case Group(inner, more) =>
      FeedPrint(inner, depth + 1);
      FeedPrint(more, depth);
      FeedConcat(['('], Print(inner), s);
      FeedConcat(['('] + Print(inner), [')'], s);
      FeedConcat(['('] + Print(inner) + [')'], Print(more), s);
  }

  // ----- Whatever leaves the scanner where it was is a printed argument list -----

  lemma {:induction false} SplitQuoted(text: string, q: char, depth: nat) returns (body: string, rest: string)
    requires depth > 0 && IsQuote(q)
    requires Feed(text, State(depth, Some(q))) == Some(OPENED)
    ensures text == body + [q] + rest && Escape(body, q) == body
    ensures Feed(rest, State(depth, None)) == Some(OPENED)
  {
    if text[0] == q {
      body, rest := [], text[1..];
    } else {
      var tail;
      tail, rest := SplitQuoted(text[1..], q, depth);
      body := [text[0]] + tail;
      assert body[1..] == tail;
    }
  }

  /** `text` is the print of `a`, followed by a closing parenthesis and `rest` at a deeper level. */
  ghost predicate Spells(text: string, a: Args, deeper: bool, rest: string) {
    WellFormed(a) && text == Print(a) + (if deeper then [')'] + rest else [])
  }

  lemma SpellPlain(text: string, more: Args, deeper: bool, rest: string)
    requires text != [] && !IsQuote(text[0]) && text[0] != '(' && text[0] != ')'
    requires Spells(text[1..], more, deeper, rest)
    ensures Spells(text, Plain(text[0], more), deeper, rest)
  {
    assert text == [text[0]] + text[1..];
  }

  lemma SpellQuoted(text: string, q: char, body: string, after: string, more: Args, deeper: bool, rest: string)
    requires IsQuote(q) && Escape(body, q) == body && text == [q] + body + [q] + after
    requires Spells(after, more, deeper, rest)
    ensures Spells(text, Quoted(q, body, more), deeper, rest)
  {
  }

  lemma SpellGroup(text: string, inner: Args, after: string, more: Args, deeper: bool, rest: string)
    requires text != [] && text[0] == '(' && Spells(text[1..], inner, true, after)
    requires Spells(after, more, deeper, rest)
    ensures Spells(text, Group(inner, more), deeper, rest)
  {
    assert text == ['('] + text[1..];
  }

  /** A text that leads back to depth one starts with an argument list, which is all of it from
      depth one and is followed by a closing parenthesis from any deeper level. */
  lemma {:induction false} Parse(text: string, depth: nat) returns (a: Args, rest: string)
    requires 0 < depth && Feed(text, State(depth, None)) == Some(OPENED)
    ensures Spells(text, a, depth > 1, rest)
    ensures depth > 1 ==> Feed(rest, State(depth - 1, None)) == Some(OPENED)
    decreases |text|
  {
    if text == [] || text[0] == ')' {
      a, rest := Nil, if text == [] then [] else text[1..];
    } else if text[0] == '(' {
      var inner, after := Parse(text[1..], depth + 1);
      var more;
      more, rest := Parse(after, depth);
      a := Group(inner, more);
      SpellGroup(text, inner, after, more, depth > 1, rest);
    } else if IsQuote(text[0]) {
      var body, after := SplitQuoted(text[1..], text[0], depth);
      var more;
      more, rest := Parse(after, depth);
      a := Quoted(text[0], body, more);
      assert text == [text[0]] + text[1..];
      SpellQuoted(text, text[0], body, after, more, depth > 1, rest);
    } else {
      var more;
      more, rest := Parse(text[1..], depth);
      a := Plain(text[0], more);
      SpellPlain(text, more, depth > 1, rest);
    }
  }

  /** The grammar and the scanner agree on every text. */
  lemma PrintedExactlyWhenFed(text: string)
    ensures Feed(text, OPENED) == Some(OPENED) <==> exists a :: WellFormed(a) && text == Print(a)
  {
    if Feed(text, OPENED) == Some(OPENED) {
      var a, _ := Parse(text, 1);
    }
    if a :| WellFormed(a) && text == Print(a) {
      FeedPrint(a, 1);
    }
  }

  /** No text that the scanner reads without closing holds a complete argument list. */
  lemma OpenTextHasNoCall(text: string, a: Args)
    requires Closes(text, a)
    ensures Feed(text, OPENED).None?
  {
    var rest := text[|Print(a)| + 1..];
    assert text == Print(a) + [')'] + rest;
    FeedPrint(a, 1);
    FeedConcat(Print(a), [')'], OPENED);
    FeedConcat(Print(a) + [')'], rest, OPENED);
  }

  // ----- The loop of the source -----

  /** `start` is the index just behind the opening parenthesis of the call. */
  method ScanCall(sql: string, start: nat) returns (index: nat)
    requires start <= |sql|
    ensures forall a :: Closes(sql[start..], a) ==> index == start + |Print(a)| + 1
    ensures (forall a :: !Closes(sql[start..], a)) ==> index == |sql|
  {
    var depth: nat := 1;
    var quote: Option<char> := None;
    index := start;
    while index < |sql| && depth > 0
      invariant start <= index <= |sql|
      invariant quote.Some? ==> quote.value == '\'' || quote.value == '"'
      invariant depth > 0 ==> Feed(sql[start..index], OPENED) == Some(State(depth, quote))
      invariant depth == 0 ==> start < index && sql[index - 1] == ')' && Feed(sql[start..index - 1], OPENED) == Some(OPENED)
    {
      var c := sql[index];
      ghost var before := State(depth, quote);
      FeedNext(sql, start, index, before);
      if quote.Some? {
        if c == quote.value && index + 1 < |sql| && sql[index + 1] == quote.value {
          index := index + 1;
          FeedNext(sql, start, index, before.(quote := None));
        } else if c == quote.value {
          quote := None;
        }
      } else if c == '\'' || c == '"' {
        quote := Some(c);
      } else if c == '(' {
        depth := depth + 1;
      } else if c == ')' {
        depth := depth - 1;
      }
      index := index + 1;
    }
    Stopped(sql, start, index, depth == 0);
  }

  lemma FeedNext(sql: string, start: nat, index: nat, s: State)
    requires start <= index < |sql| && s.depth > 0
    requires Feed(sql[start..index], OPENED) == Some(s)
    ensures Step(s, sql[index]).depth > 0 ==> Feed(sql[start..index + 1], OPENED) == Some(Step(s, sql[index]))
    ensures Step(s, sql[index]).depth == 0 ==> s == OPENED && sql[index] == ')'
  {
    var c := sql[index];
    assert sql[start..index + 1] == sql[start..index] + [c];
    FeedConcat(sql[start..index], [c], OPENED);
    assert Feed([c], s) == if Step(s, c).depth == 0 then None else Some(Step(s, c)) by {
      if Step(s, c).depth > 0 {
        assert Feed([c][1..], Step(s, c)) == Some(Step(s, c));
      }
    }
  }

  /** Where the loop stopped is where the grammar says the call ends. */
  lemma Stopped(sql: string, start: nat, index: nat, closed: bool)
    requires start <= index <= |sql|
    requires closed ==> start < index && sql[index - 1] == ')' && Feed(sql[start..index - 1], OPENED) == Some(OPENED)
    requires !closed ==> index == |sql| && Feed(sql[start..index], OPENED).Some?
    ensures forall a :: Closes(sql[start..], a) ==> index == start + |Print(a)| + 1
    ensures (forall a :: !Closes(sql[start..], a)) ==> index == |sql|
  {
    var text := sql[start..];
    if !closed {
      assert sql[start..index] == text;
      forall a | Closes(text, a)
        ensures false
      {
        OpenTextHasNoCall(text, a);
      }
    } else {
      var read := sql[start..index - 1];
      PrintedExactlyWhenFed(read);
      var b :| WellFormed(b) && read == Print(b);
      assert Closes(text, b) by {
        assert read + [')'] == text[..index - start];
      }
      forall a | Closes(text, a)
        ensures |Print(a)| == |read|
      {
        if |Print(a)| < |read| {
          assert Print(a) + [')'] <= read;
          OpenTextHasNoCall(read, a);
        } else if |read| < |Print(a)| {
          assert Print(b) + [')'] <= Print(a);
          OpenTextHasNoCall(Print(a), b);
          FeedPrint(a, 1);
        }
      }
    }
  }
}
