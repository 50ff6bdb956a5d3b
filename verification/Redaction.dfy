/** Replacing registered secrets in text, whatever order the secret set is walked in. */
module Redaction {

  const MARKER := "[REDACTED]"

  predicate At(text: string, part: string, i: nat) {
    i + |part| <= |text| && text[i..i + |part|] == part
  }

  ghost predicate Contains(text: string, part: string) {
    exists i: nat :: At(text, part, i)
  }

  /** Left-to-right replacement of non-overlapping occurrences. */
  function Replace(text: string, secret: string): string
    requires secret != ""
    decreases |text|
  {
    if |text| < |secret| then text
    else if secret <= text then MARKER + Replace(text[|secret|..], secret)
    else [text[0]] + Replace(text[1..], secret)
  }

  function RedactInOrder(text: string, order: seq<string>): string
    decreases |order|
  {
    if order == [] then text
    else
      var out := if order[0] == "" then text else Replace(text, order[0]);
      RedactInOrder(out, order[1..])
  }

  /** Laid over the marker at `offset`, `part` agrees with it wherever the two overlap. */
  ghost predicate Fits(part: string, offset: int) {
    forall i :: 0 <= i < |part| && 0 <= offset + i < |MARKER| ==> part[i] == MARKER[offset + i]
  }

  /** However `part` is laid to overlap the marker, some shared position disagrees. */
  ghost predicate Apart(part: string) {
    forall offset :: -|part| < offset < |MARKER| ==> !Fits(part, offset)
  }

  /** No tail of `part` begins the marker, nor the marker it. */
  ghost predicate NoTail(part: string) {
    forall offset :: -|part| < offset <= 0 ==> !Fits(part, offset)
  }

  /** Occurrences behind a prefix are the occurrences of what follows it, moved along. */
  lemma AtShift(prefix: string, rest: string, part: string, j: nat)
    ensures At(prefix + rest, part, |prefix| + j) <==> At(rest, part, j)
  {
  }

  lemma FitsRest(part: string, offset: int)
    requires part != "" && offset <= 0 && Fits(part[1..], offset)
    ensures Fits(part, offset - 1)
  {
  }

  lemma NoTailOfRest(part: string)
    requires NoTail(part) && part != ""
    ensures NoTail(part[1..])
  {
    forall offset | -|part[1..]| < offset <= 0
      ensures !Fits(part[1..], offset)
    {
      if Fits(part[1..], offset) {
        FitsRest(part, offset);
        assert false;
      }
    }
  }

  lemma FitsFront(rest: string, part: string)
    requires part <= MARKER + rest
    ensures Fits(part, 0)
  {
  }

  /** What begins the replaced text without running into a marker began the original. */
  lemma {:induction false} PrefixSurvives(text: string, secret: string, part: string)
    requires secret != "" && NoTail(part)
    requires part <= Replace(text, secret)
    ensures part <= text
    decreases |text|
  {
    if part != "" && |text| >= |secret| {
      if secret <= text {
        FitsFront(Replace(text[|secret|..], secret), part);
        assert false;
      } else {
        var rest := Replace(text[1..], secret);
        assert Replace(text, secret)[1..] == rest;
        assert part[1..] <= rest;
        NoTailOfRest(part);
        PrefixSurvives(text[1..], secret, part[1..]);
        assert text == [text[0]] + text[1..] && part == [part[0]] + part[1..];
      }
    }
  }

  /** A string apart from the marker occurs behind it or not at all. */
  lemma PastMarker(rest: string, part: string, i: nat)
    requires part != "" && Apart(part) && At(MARKER + rest, part, i)
    ensures i >= |MARKER| && At(rest, part, i - |MARKER|)
  {
    var out := MARKER + rest;
    if i < |MARKER| {
      forall j | 0 <= j < |part| && 0 <= i + j < |MARKER|
        ensures part[j] == MARKER[i + j]
      {
        assert part[j] == out[i..i + |part|][j] == out[i + j];
      }
      assert Fits(part, i);
      assert false;
    }
    AtShift(MARKER, rest, part, i - |MARKER|);
  }

  lemma ContainedInRest(text: string, k: nat, part: string)
    requires k <= |text| && Contains(text[k..], part)
    ensures Contains(text, part)
  {
    var j: nat :| At(text[k..], part, j);
    AtShift(text[..k], text[k..], part, j);
    assert text == text[..k] + text[k..];
  }

  /** Where an occurrence in the replaced text stands when the text did not begin with the secret. */
  lemma PastChar(text: string, secret: string, part: string, i: nat)
    requires secret != "" && |text| >= |secret| && !(secret <= text)
    requires At(Replace(text, secret), part, i)
    ensures i > 0 ==> At(Replace(text[1..], secret), part, i - 1)
    ensures i == 0 ==> part <= Replace(text, secret)
  {
    if i > 0 {
      AtShift([text[0]], Replace(text[1..], secret), part, i - 1);
    }
  }

  /** Replacing one secret never creates an occurrence of a string apart from the marker. */
  lemma {:induction false} NothingNew(text: string, secret: string, part: string, i: nat)
    requires secret != "" && part != "" && Apart(part)
    requires At(Replace(text, secret), part, i)
    ensures Contains(text, part)
    decreases |text|
  {
    if |text| < |secret| {
      assert At(text, part, i);
    } else if secret <= text {
      PastMarker(Replace(text[|secret|..], secret), part, i);
      NothingNew(text[|secret|..], secret, part, i - |MARKER|);
      ContainedInRest(text, |secret|, part);
    } else {
      PastChar(text, secret, part, i);
      if i == 0 {
        PrefixSurvives(text, secret, part);
        assert At(text, part, 0);
      } else {
        NothingNew(text[1..], secret, part, i - 1);
        ContainedInRest(text, 1, part);
      }
    }
  }

  /** Replacing a secret that is apart from the marker leaves no occurrence of it. */
  lemma {:induction false} Removed(text: string, secret: string, i: nat)
    requires secret != "" && Apart(secret)
    ensures !At(Replace(text, secret), secret, i)
    decreases |text|
  {
    if |text| >= |secret| {
      if At(Replace(text, secret), secret, i) {
        if secret <= text {
          PastMarker(Replace(text[|secret|..], secret), secret, i);
          Removed(text[|secret|..], secret, i - |MARKER|);
        } else if i == 0 {
          assert secret <= Replace(text, secret);
          PrefixSurvives(text, secret, secret);
        } else {
          AtShift([text[0]], Replace(text[1..], secret), secret, i - 1);
          Removed(text[1..], secret, i - 1);
        }
      }
    }
  }

  lemma {:induction false} ReplaceAbsent(text: string, secret: string)
    requires secret != "" && !Contains(text, secret)
    ensures Replace(text, secret) == text
    decreases |text|
  {
    if |text| >= |secret| {
      assert !At(text, secret, 0);
      assert text == [text[0]] + text[1..];
      forall j: nat
        ensures !At(text[1..], secret, j)
      {
        AtShift([text[0]], text[1..], secret, j);
      }
      ReplaceAbsent(text[1..], secret);
    }
  }

  lemma {:induction false} StaysAbsent(text: string, order: seq<string>, secret: string)
    requires secret != "" && Apart(secret) && !Contains(text, secret)
    ensures !Contains(RedactInOrder(text, order), secret)
    decreases |order|
  {
    if order != [] {
      var out := if order[0] == "" then text else Replace(text, order[0]);
      if i: nat :| At(out, secret, i) {
        if order[0] != "" { NothingNew(text, order[0], secret, i); }
      }
      StaysAbsent(out, order[1..], secret);
    }
  }

  /** After redaction in any order, next to any other secrets, no secret apart from the marker remains. */
  lemma {:induction false} RedactionIsComplete(text: string, order: seq<string>, secret: string)
    requires secret in order && secret != "" && Apart(secret)
    ensures !Contains(RedactInOrder(text, order), secret)
    decreases |order|
  {
    var out := if order[0] == "" then text else Replace(text, order[0]);
    if order[0] == secret {
      forall i: nat
        ensures !At(out, secret, i)
      {
        Removed(text, secret, i);
      }
      StaysAbsent(out, order[1..], secret);
    } else {
      RedactionIsComplete(out, order[1..], secret);
    }
  }

  lemma {:induction false} NothingToRedact(text: string, order: seq<string>)
    requires forall s :: s in order && s != "" ==> !Contains(text, s)
    ensures RedactInOrder(text, order) == text
    decreases |order|
  {
    if order != [] {
      if order[0] != "" { ReplaceAbsent(text, order[0]); }
      NothingToRedact(text, order[1..]);
    }
  }

  /** Redacting again, in the same or any other order, changes nothing. */
  lemma RedactionIsIdempotent(text: string, order: seq<string>, again: seq<string>)
    requires forall s :: s in order && s != "" ==> Apart(s)
    requires forall s :: s in again ==> s in order
    ensures RedactInOrder(RedactInOrder(text, order), again) == RedactInOrder(text, order)
  {
    forall s | s in again && s != ""
      ensures !Contains(RedactInOrder(text, order), s)
    {
      RedactionIsComplete(text, order, s);
    }
    NothingToRedact(RedactInOrder(text, order), again);
  }

  /* ---------- the condition is exact ---------- */

  /** Whatever the text and whatever other secrets are registered, `secret` never remains. */
  ghost predicate AlwaysRemoved(secret: string) {
    forall text: string, order: seq<string> :: secret in order ==> !Contains(RedactInOrder(text, order), secret)
  }

  /** A registered secret is removed from every text in every order exactly when it is apart from the marker. */
  lemma RedactionIsExact(secret: string)
    requires secret != ""
    ensures AlwaysRemoved(secret) <==> Apart(secret)
  {
    if Apart(secret) {
      forall text: string, order: seq<string> | secret in order
        ensures !Contains(RedactInOrder(text, order), secret)
      {
        RedactionIsComplete(text, order, secret);
      }
    } else {
      var offset :| -|secret| < offset < |MARKER| && Fits(secret, offset);
      OverlapLeaks(secret, offset);
    }
  }

  /** A secret without brackets that is no part of the marker's word is apart from the marker. */
  lemma BracketFreeIsApart(secret: string)
    requires forall i :: 0 <= i < |secret| ==> secret[i] != '[' && secret[i] != ']'
    requires !Contains("REDACTED", secret)
    ensures Apart(secret)
  {
    assert secret != "" by { assert At("REDACTED", "", 0); }
    forall offset | -|secret| < offset < |MARKER|
      ensures !Fits(secret, offset)
    {
      if offset <= 0 {
        assert secret[-offset] != MARKER[0];
      } else if offset + |secret| >= |MARKER| {
        assert secret[|MARKER| - 1 - offset] != MARKER[|MARKER| - 1];
      } else if Fits(secret, offset) {
        WordPart(secret, offset);
        assert false;
      }
    }
  }

  lemma WordPart(secret: string, offset: nat)
    requires 0 < offset && offset + |secret| < |MARKER| && Fits(secret, offset)
    ensures Contains("REDACTED", secret)
  {
    var word := "REDACTED";
    assert MARKER[1..9] == word;
    assert word[offset - 1..offset - 1 + |secret|] == secret;
    assert At(word, secret, offset - 1);
  }

  lemma OverlapAt(secret: string, offset: int, pre: string, post: string, i: nat)
    requires -|secret| < offset < |MARKER| && Fits(secret, offset) && i < |secret|
    requires pre == if offset < 0 then secret[..-offset] else ""
    requires post == if offset + |secret| > |MARKER| then secret[|MARKER| - offset..] else ""
    ensures var at := if offset < 0 then 0 else offset;
            at + i < |pre| + |MARKER| + |post| && (pre + (MARKER + post))[at + i] == secret[i]
  {
    if 0 <= offset + i < |MARKER| {
      assert secret[i] == MARKER[offset + i];
    }
  }

  /** Text in which `secret` lies over a marker at `offset`. */
  lemma OverlapContains(secret: string, offset: int, pre: string, post: string)
    requires secret != "" && -|secret| < offset < |MARKER| && Fits(secret, offset)
    requires pre == if offset < 0 then secret[..-offset] else ""
    requires post == if offset + |secret| > |MARKER| then secret[|MARKER| - offset..] else ""
    ensures Contains(pre + (MARKER + post), secret)
  {
    var out, at: nat := pre + (MARKER + post), if offset < 0 then 0 else offset;
    forall i | 0 <= i < |secret|
      ensures at + i < |out| && out[at + i] == secret[i]
    {
      OverlapAt(secret, offset, pre, post, i);
    }
    assert at + (|secret| - 1) < |out|;
    assert out[at..at + |secret|] == secret;
    assert At(out, secret, at);
  }

  lemma ReplaceHere(secret: string, rest: string)
    requires secret != ""
    ensures Replace(secret + rest, secret) == MARKER + Replace(rest, secret)
  {
    var text := secret + rest;
    assert secret <= text && text[|secret|..] == rest;
  }

  lemma ReplaceLater(c: char, rest: string, secret: string)
    requires secret != "" && !At([c] + rest, secret, 0)
    ensures Replace([c] + rest, secret) == [c] + Replace(rest, secret)
  {
    var text := [c] + rest;
    assert text[1..] == rest;
  }

  /** No occurrence of `part` begins in the first `n` places. */
  ghost predicate NoneBefore(text: string, part: string, n: nat) {
    forall j :: 0 <= j < n ==> !At(text, part, j)
  }

  lemma NoneBeforeRest(c: char, rest: string, part: string, n: nat)
    requires NoneBefore([c] + rest, part, n + 1)
    ensures NoneBefore(rest, part, n)
  {
    forall j | 0 <= j < n
      ensures !At(rest, part, j)
    {
      AtShift([c], rest, part, j);
    }
  }

  lemma FirstAside(pre: string, tail: string)
    requires pre != ""
    ensures pre + tail == [pre[0]] + (pre[1..] + tail)
  {
  }

  /** Scanning passes over a front in which nothing is found. */
  lemma {:induction false} ReplaceLaterOn(pre: string, tail: string, secret: string)
    requires secret != "" && NoneBefore(pre + tail, secret, |pre|)
    ensures Replace(pre + tail, secret) == pre + Replace(tail, secret)
    decreases |pre|
  {
    if pre == "" {
      assert pre + tail == tail;
      assert pre + Replace(tail, secret) == Replace(tail, secret);
    } else {
      FirstAside(pre, tail);
      FirstAside(pre, Replace(tail, secret));
      NoneBeforeRest(pre[0], pre[1..] + tail, secret, |pre| - 1);
      ReplaceLater(pre[0], pre[1..] + tail, secret);
      ReplaceLaterOn(pre[1..], tail, secret);
    }
  }

  /** A run of one character, too long to be inside `secret` and different from it where they could meet. */
  function Filler(secret: string, before: string): (filler: string)
    requires secret != ""
    ensures |filler| == |secret| + 1
    ensures forall i :: 0 <= i < |filler| ==>
              filler[i] != secret[0] && filler[i] != secret[|secret| - 1] && (before != "" ==> filler[i] != before[|before| - 1])
  {
    var taken := {secret[0], secret[|secret| - 1]} + if before == "" then {} else {before[|before| - 1]};
    var c := if 'a' !in taken then 'a' else if 'b' !in taken then 'b' else if 'c' !in taken then 'c' else 'd';
    seq(|secret| + 1, _ => c)
  }

  lemma AtIndex(text: string, part: string, i: nat, k: nat)
    requires At(text, part, i) && k < |part|
    ensures text[i + k] == part[k]
  {
  }

  lemma FillerHidesSecret(secret: string, pre: string, post: string, j: nat)
    requires secret != "" && |pre| < |secret| && |post| < |secret|
    ensures !At(pre + (Filler(secret, pre) + post), secret, j)
  {
  }

  lemma FillerStartsAfter(secret: string, pre: string, post: string, j: nat)
    requires secret != "" && j < |pre| < |secret|
    ensures !At(pre + (Filler(secret, pre) + post), Filler(secret, pre), j)
  {
    var filler := Filler(secret, pre);
    var text := pre + (filler + post);
    if At(text, filler, j) {
      AtIndex(text, filler, j, |pre| - 1 - j);
      assert false;
    }
  }

  /** If `secret` can overlap the marker, a second secret can be chosen whose marker completes it. */
  lemma OverlapLeaks(secret: string, offset: int)
    requires secret != "" && -|secret| < offset < |MARKER| && Fits(secret, offset)
    ensures !AlwaysRemoved(secret)
  {
    var pre := if offset < 0 then secret[..-offset] else "";
    var post := if offset + |secret| > |MARKER| then secret[|MARKER| - offset..] else "";
    OverlapContains(secret, offset, pre, post);
    MarkerBetweenLeaks(secret, pre, post);
  }

  lemma MarkerBetweenLeaks(secret: string, pre: string, post: string)
    requires secret != "" && |pre| < |secret| && |post| < |secret|
    requires Contains(pre + (MARKER + post), secret)
    ensures !AlwaysRemoved(secret)
  {
    var filler := Filler(secret, pre);
    var text, order := pre + (filler + post), [secret, filler];
    FillerIsReplaced(secret, pre, post);
    RedactTwice(text, secret, filler);
    assert secret in order;
  }

  lemma FillerIsReplaced(secret: string, pre: string, post: string)
    requires secret != "" && |pre| < |secret| && |post| < |secret|
    ensures var text := pre + (Filler(secret, pre) + post);
            Replace(Replace(text, secret), Filler(secret, pre)) == pre + (MARKER + post)
  {
    var filler := Filler(secret, pre);
    var text := pre + (filler + post);
    forall j: nat
      ensures !At(text, secret, j)
    {
      FillerHidesSecret(secret, pre, post, j);
    }
    forall j | 0 <= j < |pre|
      ensures !At(text, filler, j)
    {
      FillerStartsAfter(secret, pre, post, j);
    }
    ReplaceAbsent(text, secret);
    ReplaceLaterOn(pre, filler + post, filler);
    ReplaceHere(filler, post);
    assert Replace(post, filler) == post;
  }

  lemma RedactTwice(text: string, first: string, second: string)
    requires first != "" && second != ""
    ensures RedactInOrder(text, [first, second]) == Replace(Replace(text, first), second)
  {
    var order := [first, second];
    assert order[1..] == [second] && [second][1..] == [];
    assert RedactInOrder(Replace(text, first), [second]) == RedactInOrder(Replace(Replace(text, first), second), []);
  }

  /** One such secret: `]x` reappears across the end of its own marker. */
  lemma BracketedSecretLeaks()
    ensures Contains(RedactInOrder("]xx", ["]x"]), "]x")
  {
    var text, secret := "]xx", "]x";
    var order := [secret];
    assert text[|secret|..] == "x" && Replace("x", secret) == "x";
    assert secret <= text;
    assert Replace(text, secret) == MARKER + "x";
    assert order[1..] == [];
    assert At(MARKER + "x", secret, 9);
  }

  /* ---------- what replacing leaves ---------- */

  /** The pieces with `glue` between each two. */
  ghost function Glued(pieces: seq<string>, glue: string): string
    requires pieces != []
  {
    if |pieces| == 1 then pieces[0] else pieces[0] + glue + Glued(pieces[1..], glue)
  }

  lemma GluedCons(piece: string, pieces: seq<string>, glue: string)
    requires pieces != []
    ensures Glued([piece] + pieces, glue) == piece + glue + Glued(pieces, glue)
  {
    assert ([piece] + pieces)[1..] == pieces;
  }

  lemma GluedHead(c: char, pieces: seq<string>, glue: string)
    requires pieces != []
    ensures Glued([[c] + pieces[0]] + pieces[1..], glue) == [c] + Glued(pieces, glue)
  {
    var longer := [[c] + pieces[0]] + pieces[1..];
    assert longer[1..] == pieces[1..];
    if |pieces| > 1 {
      assert ([c] + pieces[0]) + glue + Glued(pieces[1..], glue) == [c] + (pieces[0] + glue + Glued(pieces[1..], glue));
    }
  }

  /**
   `pieces` cut the text at the secret's occurrences, leftmost first and without overlap, and replacing
   puts the marker between them: no piece before an occurrence holds an earlier one.
   */
  ghost predicate CutAt(text: string, secret: string, pieces: seq<string>)
    requires secret != ""
  {
    && pieces != []
    && text == Glued(pieces, secret)
    && Replace(text, secret) == Glued(pieces, MARKER)
    && (forall i :: 0 <= i < |pieces| - 1 ==> NoneBefore(pieces[i] + secret, secret, |pieces[i]|))
    && !Contains(pieces[|pieces| - 1], secret)
  }

  lemma {:induction false} ReplaceIsExact(text: string, secret: string) returns (pieces: seq<string>)
    requires secret != ""
    ensures CutAt(text, secret, pieces) && Replace(text, secret) == Glued(pieces, "[REDACTED]")
    decreases |text|
  {
    if |text| < |secret| {
      pieces := [text];
      assert forall j: nat :: !At(text, secret, j);
    } else if secret <= text {
      var rest := ReplaceIsExact(text[|secret|..], secret);
      pieces := [""] + rest;
      CutHere(text, secret, rest);
    } else {
      var rest := ReplaceIsExact(text[1..], secret);
      pieces := [[text[0]] + rest[0]] + rest[1..];
      CutLater(text, secret, rest);
    }
  }

  lemma CutHere(text: string, secret: string, rest: seq<string>)
    requires secret != "" && secret <= text && CutAt(text[|secret|..], secret, rest)
    ensures CutAt(text, secret, [""] + rest)
  {
    var pieces := [""] + rest;
    GluedCons("", rest, secret);
    GluedCons("", rest, MARKER);
    assert text == "" + secret + text[|secret|..];
    assert Replace(text, secret) == "" + MARKER + Replace(text[|secret|..], secret);
    forall i | 0 <= i < |pieces| - 1
      ensures NoneBefore(pieces[i] + secret, secret, |pieces[i]|)
    {
      if i > 0 { assert pieces[i] == rest[i - 1]; }
    }
    assert pieces[|pieces| - 1] == rest[|rest| - 1];
  }

  lemma CutLater(text: string, secret: string, rest: seq<string>)
    requires secret != "" && |text| >= |secret| && !(secret <= text) && CutAt(text[1..], secret, rest)
    ensures CutAt(text, secret, [[text[0]] + rest[0]] + rest[1..])
  {
    var pieces := [[text[0]] + rest[0]] + rest[1..];
    GluedHead(text[0], rest, secret);
    GluedHead(text[0], rest, MARKER);
    assert text == [text[0]] + text[1..];
    LaterPieces(text, secret, rest, pieces);
  }

  lemma LaterPieces(text: string, secret: string, rest: seq<string>, pieces: seq<string>)
    requires secret != "" && text != "" && rest != [] && !(secret <= text)
    requires text == [text[0]] + Glued(rest, secret) && pieces == [[text[0]] + rest[0]] + rest[1..]
    requires forall i :: 0 <= i < |rest| - 1 ==> NoneBefore(rest[i] + secret, secret, |rest[i]|)
    requires !Contains(rest[|rest| - 1], secret)
    ensures forall i :: 0 <= i < |pieces| - 1 ==> NoneBefore(pieces[i] + secret, secret, |pieces[i]|)
    ensures !Contains(pieces[|pieces| - 1], secret)
  {
    if |rest| > 1 {
      assert Glued(rest, secret) == (rest[0] + secret) + Glued(rest[1..], secret);
      assert text == ([text[0]] + (rest[0] + secret)) + Glued(rest[1..], secret);
      NoneBeforeMore(text[0], rest[0], secret, text);
    } else {
      NotContainedMore(text[0], rest[0], secret);
    }
  }

  lemma NoneBeforeMore(c: char, piece: string, secret: string, text: string)
    requires secret != "" && [c] + (piece + secret) <= text && !(secret <= text)
    requires NoneBefore(piece + secret, secret, |piece|)
    ensures NoneBefore(([c] + piece) + secret, secret, |piece| + 1)
  {
    var longer := [c] + (piece + secret);
    assert ([c] + piece) + secret == longer;
    forall j | 0 <= j < |piece| + 1
      ensures !At(longer, secret, j)
    {
      if j == 0 {
        assert longer[..|secret|] == text[..|secret|];
      } else {
        AtShift([c], piece + secret, secret, j - 1);
      }
    }
  }

  lemma NotContainedMore(c: char, piece: string, secret: string)
    requires secret != "" && !(secret <= [c] + piece) && !Contains(piece, secret)
    ensures !Contains([c] + piece, secret)
  {
    forall j: nat
      ensures !At([c] + piece, secret, j)
    {
      if j > 0 { AtShift([c], piece, secret, j - 1); }
    }
  }
}
