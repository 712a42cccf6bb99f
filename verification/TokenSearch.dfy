/** The two ordered-substring searches over catalog definitions.

    `expressionHasTokens` (scripts/database/phase3-subscriber-publication-schema-online-postflight.js)
    looks for tokens one behind the other, `assertDefinition`
    (scripts/database/actual60-refreshsession-online-index-preflight.js) for markers that start one
    behind the other and may overlap.  Both take the leftmost occurrence and never go back; both are
    proved complete.  Texts and tokens are the already canonical ones. */
module TokenSearch {

  ghost predicate Occurs(text: string, token: string, at: nat) {
    at + |token| <= |text| && text[at..at + |token|] == token
  }

  /** `starts` places every token, each one where the previous one allows it. */
  ghost predicate Placed(text: string, tokens: seq<string>, starts: seq<nat>, apart: bool) {
    && |starts| == |tokens|
    && (forall i :: 0 <= i < |starts| ==> Occurs(text, tokens[i], starts[i]))
    && (forall i :: 0 < i < |starts| ==> starts[i - 1] + Stride(tokens[i - 1], apart) <= starts[i])
  }

  /** Tokens stay apart; markers only have to start later. */
  function Stride(token: string, apart: bool): nat {
    if apart then |token| else 1
  }

  // ----- The leftmost occurrence -----

  /** `String.prototype.indexOf`: an empty token is found wherever the search starts, but never
      behind the end of the text. */
  method IndexOf(text: string, token: string, from: nat) returns (at: int)
    ensures at >= 0 ==> Lands(text, token, from, at)
    ensures at >= 0 ==> forall p :: Lands(text, token, from, p) ==> at <= p
    ensures at < 0 ==> forall p :: !Lands(text, token, from, p)
  {
    if token == [] {
      at := if from <= |text| then from else |text|;
      return;
    }
    at := from;
    while at + |token| <= |text|
      invariant from <= at
      invariant forall p :: from <= p < at ==> !Occurs(text, token, p)
      decreases |text| - at
    {
      if text[at..at + |token|] == token {
        return;
      }
      at := at + 1;
    }
    at := -1;
  }

  /** What a search from `from` may find: an occurrence there or later, or the end of the text when
      an empty token is searched behind it. */
  ghost predicate Lands(text: string, token: string, from: nat, at: nat) {
    (from <= at && Occurs(text, token, at)) || (token == [] && |text| < from && at == |text|)
  }

  // ----- Exchange argument -----

  /** Some choice of landings serves all tokens, starting the first search at `from`. */
  ghost predicate Fits(text: string, tokens: seq<string>, from: nat, apart: bool) {
    tokens == []
    || exists at: nat :: Lands(text, tokens[0], from, at) && Fits(text, tokens[1..], at + Stride(tokens[0], apart), apart)
  }

  /** Starting earlier never hurts. */
  lemma {:induction false} FitsEarlier(text: string, tokens: seq<string>, from: nat, later: nat, apart: bool)
    requires from <= later && Fits(text, tokens, later, apart)
    ensures Fits(text, tokens, from, apart)
    decreases |tokens|
  {
    if tokens != [] {
      var at: nat :| Lands(text, tokens[0], later, at) && Fits(text, tokens[1..], at + Stride(tokens[0], apart), apart);
      assert Lands(text, tokens[0], from, at);
    }
  }

  /** The leftmost landing is as good as any other. */
  lemma LeftmostFits(text: string, tokens: seq<string>, from: nat, first: nat, apart: bool)
    requires tokens != [] && Lands(text, tokens[0], from, first)
    requires forall p :: Lands(text, tokens[0], from, p) ==> first <= p
    ensures Fits(text, tokens, from, apart) <==> Fits(text, tokens[1..], first + Stride(tokens[0], apart), apart)
  {
    if Fits(text, tokens, from, apart) {
      var at: nat :| Lands(text, tokens[0], from, at) && Fits(text, tokens[1..], at + Stride(tokens[0], apart), apart);
      FitsEarlier(text, tokens[1..], first + Stride(tokens[0], apart), at + Stride(tokens[0], apart), apart);
    }
  }

  lemma {:induction false} PlacedFits(text: string, tokens: seq<string>, starts: seq<nat>, from: nat, apart: bool)
    requires Placed(text, tokens, starts, apart) && (starts != [] ==> from <= starts[0])
    ensures Fits(text, tokens, from, apart)
    decreases |tokens|
  {
    if tokens != [] {
      assert Lands(text, tokens[0], from, starts[0]);
      PlacedFits(text, tokens[1..], starts[1..], starts[0] + Stride(tokens[0], apart), apart);
    }
  }

  /** Behind the end of the text only empty tokens are found. */
  lemma {:induction false} NothingBehindTheEnd(text: string, tokens: seq<string>, from: nat)
    requires tokens != [] && tokens[|tokens| - 1] != [] && |text| < from
    ensures !Fits(text, tokens, from, false)
    decreases |tokens|
  {
    if Fits(text, tokens, from, false) {
      var at: nat :| Lands(text, tokens[0], from, at) && Fits(text, tokens[1..], at + 1, false);
      NothingBehindTheEnd(text, tokens[1..], at + 1);
    }
  }

  lemma {:induction false} FitsPlaced(text: string, tokens: seq<string>, from: nat, apart: bool) returns (starts: seq<nat>)
    requires Fits(text, tokens, from, apart)
    requires if apart then from <= |text| else tokens != [] ==> tokens[|tokens| - 1] != []
    ensures Placed(text, tokens, starts, apart) && (starts != [] ==> from <= starts[0])
    decreases |tokens|
  {
    if tokens == [] {
      starts := [];
    } else {
      if !apart && |text| < from {
        NothingBehindTheEnd(text, tokens, from);
      }
      var at: nat :| Lands(text, tokens[0], from, at) && Fits(text, tokens[1..], at + Stride(tokens[0], apart), apart);
      var rest := FitsPlaced(text, tokens[1..], at + Stride(tokens[0], apart), apart);
      starts := [at] + rest;
      forall i | 0 < i < |starts|
        ensures starts[i - 1] + Stride(tokens[i - 1], apart) <= starts[i]
      {
        if i > 1 {
          assert starts[i] == rest[i - 1] && starts[i - 1] == rest[i - 2];
        }
      }
    }
  }

  // ----- The two searches -----

  method ExpressionHasTokens(canonical: string, tokens: seq<string>) returns (found: bool)
    ensures found <==> exists starts :: Placed(canonical, tokens, starts, true)
  {
    var offset: nat := 0;
    for i := 0 to |tokens|
      invariant offset <= |canonical|
      invariant Fits(canonical, tokens, 0, true) <==> Fits(canonical, tokens[i..], offset, true)
    {
      var next := IndexOf(canonical, tokens[i], offset);
      if next < 0 {
        TokensPlaced(canonical, tokens);
        return false;
      }
      LeftmostFits(canonical, tokens[i..], offset, next, true);
      assert tokens[i..][1..] == tokens[i + 1..];
      offset := next + |tokens[i]|;
    }
    TokensPlaced(canonical, tokens);
    return true;
  }

  lemma TokensPlaced(text: string, tokens: seq<string>)
    ensures Fits(text, tokens, 0, true) <==> exists starts :: Placed(text, tokens, starts, true)
  {
    if Fits(text, tokens, 0, true) {
      var starts := FitsPlaced(text, tokens, 0, true);
    }
    if starts :| Placed(text, tokens, starts, true) {
      PlacedFits(text, tokens, starts, 0, true);
    }
  }

  /** The markers up to the last one that is not empty. */
  function Core(markers: seq<string>): (core: seq<string>)
    ensures core != [] ==> core[|core| - 1] != []
    ensures core <= markers && forall i :: |core| <= i < |markers| ==> markers[i] == []
  {
    if markers == [] || markers[|markers| - 1] != [] then markers else Core(markers[..|markers| - 1])
  }

  /** An empty last marker is always found. */
  lemma {:induction false} EmptyLastMarker(text: string, markers: seq<string>, from: nat)
    ensures Fits(text, markers + [[]], from, false) <==> Fits(text, markers, from, false)
    decreases |markers|
  {
    var longer := markers + [[]];
    if markers == [] {
      var at: nat := if from <= |text| then from else |text|;
      assert longer[1..] == [] && Lands(text, longer[0], from, at) && Fits(text, longer[1..], at + 1, false);
    } else {
      assert longer[1..] == markers[1..] + [[]];
      if at: nat :| Lands(text, longer[0], from, at) && Fits(text, longer[1..], at + 1, false) {
        EmptyLastMarker(text, markers[1..], at + 1);
      }
      if at: nat :| Lands(text, markers[0], from, at) && Fits(text, markers[1..], at + 1, false) {
        EmptyLastMarker(text, markers[1..], at + 1);
      }
    }
  }

  lemma {:induction false} FitsCore(text: string, markers: seq<string>)
    ensures Fits(text, markers, 0, false) <==> Fits(text, Core(markers), 0, false)
    decreases |markers|
  {
    if markers != [] && markers[|markers| - 1] == [] {
      var front := markers[..|markers| - 1];
      assert markers == front + [[]];
      EmptyLastMarker(text, front, 0);
      FitsCore(text, front);
    }
  }

  lemma MarkersPlaced(text: string, markers: seq<string>)
    ensures Fits(text, markers, 0, false) <==> exists starts :: Placed(text, Core(markers), starts, false)
  {
    FitsCore(text, markers);
    if Fits(text, Core(markers), 0, false) {
      var starts := FitsPlaced(text, Core(markers), 0, false);
    }
    if starts :| Placed(text, Core(markers), starts, false) {
      PlacedFits(text, Core(markers), starts, 0, false);
    }
  }

  lemma NotFound(text: string, markers: seq<string>, from: nat, apart: bool)
    requires markers != [] && forall p :: !Lands(text, markers[0], from, p)
    ensures !Fits(text, markers, from, apart)
  {
  }

  lemma NothingFits(text: string, markers: seq<string>)
    ensures markers[0..] == markers && markers[|markers|..] == []
    ensures forall from :: Fits(text, [], from, false)
  {
  }

  /** The marker loop; `matched` is false where the source fails with a definition mismatch.  With a
      last marker that is not empty, `Core(markers)` is `markers`. */
  method MatchMarkers(normalized: string, markers: seq<string>) returns (matched: bool)
    ensures matched <==> exists starts :: Placed(normalized, Core(markers), starts, false)
  {
    MarkersPlaced(normalized, markers);
    NothingFits(normalized, markers);
    hide Core, Placed, Fits;
    var cursor := -1;
    for i := 0 to |markers|
      invariant -1 <= cursor
      invariant Fits(normalized, markers, 0, false) <==> Fits(normalized, markers[i..], cursor + 1, false)
    {
      var next := IndexOf(normalized, markers[i], cursor + 1);
      if next < 0 {
        NotFound(normalized, markers[i..], cursor + 1, false);
        return false;
      }
      LeftmostFits(normalized, markers[i..], cursor + 1, next, false);
      assert markers[i..][1..] == markers[i + 1..];
      cursor := next;
    }
    return true;
  }

  /** Empty last markers match although they cannot all be placed. */
  lemma EmptyMarkersOverrun()
    ensures exists starts :: Placed("", Core(["", ""]), starts, false)
    ensures forall starts :: !Placed("", ["", ""], starts, false)
  {
    var markers: seq<string> := ["", ""];
    assert markers[..1] == [""] && [""][..0] == [];
    assert Core(markers) == [];
    assert Placed("", [], [], false);
    forall starts: seq<nat> | |starts| == 2 && starts[0] + 1 <= starts[1]
      ensures !Occurs("", markers[1], starts[1])
    {
    }
  }
}
