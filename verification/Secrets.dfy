/** Resolving `${VAR}` templates and registering what they resolve to. */
module Secrets {
  import opened Wrappers
  import opened Redaction

  /** The credential store, keyed by server and variable, and the process environment. */
  datatype Credentials = Credentials(store: map<(string, string), string>, environment: map<string, string>) {
    function Lookup(server: string, key: string): Option<string> {
      if (server, key) in store then Some(store[(server, key)])
      else if key in environment then Some(environment[key])
      else None
    }
  }

  datatype ResolveError = CredentialResolution(server: string, key: string)

  /* ---------- the template, token by token ---------- */

  /** `Kept` is an unclosed or empty placeholder, which stays as written. */
  datatype Token = Lit(c: char) | Var(name: string) | Kept(text: string)

  const OPEN := "${"

  function FindClose(s: string): (r: Option<nat>)
    ensures r.Some? ==> r.value < |s| && s[r.value] == '}' && forall i :: 0 <= i < r.value ==> s[i] != '}'
    ensures r.None? ==> forall i :: 0 <= i < |s| ==> s[i] != '}'
  {
    if s == "" then None
    else if s[0] == '}' then Some(0)
    else match FindClose(s[1..])
      case Some(i) => Some(i + 1)
      case None => None
  }

  function Tokenize(raw: string): seq<Token>
    decreases |raw|
  {
    if raw == "" then []
    else if OPEN <= raw then
      var body := raw[2..];
      match FindClose(body)
      case None => [Kept(raw)]
      case Some(i) =>
        [if i == 0 then Kept("${}") else Var(body[..i])] + Tokenize(body[i + 1..])
    else [Lit(raw[0])] + Tokenize(raw[1..])
  }

  function Source(token: Token): string {
    match token
    case Lit(c) => [c]
    case Var(name) => OPEN + name + "}"
    case Kept(text) => text
  }

  function Sources(tokens: seq<Token>): string {
    if tokens == [] then "" else Source(tokens[0]) + Sources(tokens[1..])
  }

  predicate WellFormed(token: Token) {
    match token
    case Lit(_) => true
    case Var(name) => name != "" && '}' !in name
    case Kept(text) => text == "${}" || (OPEN <= text && '}' !in text)
  }

  lemma SourcesCons(token: Token, tokens: seq<Token>)
    ensures Sources([token] + tokens) == Source(token) + Sources(tokens)
  {
  }

  /** The first token is spelled by the front of the template. */
  lemma FirstToken(raw: string) returns (token: Token, rest: string)
    requires raw != ""
    ensures raw == Source(token) + rest && |rest| < |raw|
    ensures Tokenize(raw) == [token] + Tokenize(rest)
  {
    if OPEN <= raw {
      var body := raw[2..];
      assert raw == OPEN + body;
      match FindClose(body)
      case None =>
        token, rest := Kept(raw), "";
      case Some(i) =>
        token, rest := if i == 0 then Kept("${}") else Var(body[..i]), body[i + 1..];
        PlaceholderSpelled(body, i, token);
        assert raw == Source(token) + rest;
    } else {
      token, rest := Lit(raw[0]), raw[1..];
      assert raw == [raw[0]] + raw[1..];
    }
  }

  lemma PlaceholderSpelled(body: string, i: nat, token: Token)
    requires i < |body| && body[i] == '}'
    requires token == if i == 0 then Kept("${}") else Var(body[..i])
    ensures OPEN + body == Source(token) + body[i + 1..]
  {
    assert body == body[..i] + "}" + body[i + 1..];
    if i == 0 {
      assert body[..0] == "";
      assert Source(token) == OPEN + "}";
    }
    assert Source(token) == OPEN + body[..i] + "}";
  }

  /** The tokens of a template spell it out again, character for character. */
  lemma {:induction false} TokensAreLossless(raw: string)
    ensures Sources(Tokenize(raw)) == raw
    decreases |raw|
  {
    if raw != "" {
      var token, rest := FirstToken(raw);
      TokensAreLossless(rest);
      SourcesCons(token, Tokenize(rest));
    }
  }

  /** Variables are non-empty names without a brace; what is kept is `${}` or an unclosed rest. */
  lemma {:induction false} TokensAreWellFormed(raw: string)
    ensures forall token :: token in Tokenize(raw) ==> WellFormed(token)
    decreases |raw|
  {
    if OPEN <= raw {
      var body := raw[2..];
      match FindClose(body)
      case None =>
        forall k | 0 <= k < |raw|
          ensures raw[k] != '}'
        {
          if k >= 2 { assert raw[k] == body[k - 2]; }
        }
      case Some(i) => TokensAreWellFormed(body[i + 1..]);
    } else if raw != "" {
      TokensAreWellFormed(raw[1..]);
    }
  }

  /* ---------- what a template resolves to ---------- */

  /** A token's text in the result; None when its variable cannot be resolved. */
  function Rendered(creds: Credentials, server: string, token: Token): Option<string> {
    match token
    case Var(name) => creds.Lookup(server, name)
    case _ => Some(Source(token))
  }

  function Expand(creds: Credentials, server: string, tokens: seq<Token>): Result<string, ResolveError> {
    if tokens == [] then Ok("")
    else match Rendered(creds, server, tokens[0])
      case None => Err(CredentialResolution(server, tokens[0].name))
      case Some(text) =>
        var rest :- Expand(creds, server, tokens[1..]);
        Ok(text + rest)
  }

  /** The non-empty values substituted before the first unresolvable variable, if any. */
  function Substituted(creds: Credentials, server: string, tokens: seq<Token>): set<string> {
    if tokens == [] then {}
    else match Rendered(creds, server, tokens[0])
      case None => {}
      case Some(text) =>
        (if tokens[0].Var? && text != "" then {text} else {}) + Substituted(creds, server, tokens[1..])
  }

  function ResolveTemplate(creds: Credentials, server: string, raw: string): Result<string, ResolveError> {
    Expand(creds, server, Tokenize(raw))
  }

  /** The token has a text: it is no variable, or its variable is in the store or the environment. */
  ghost predicate Resolvable(creds: Credentials, server: string, token: Token) {
    token.Var? ==> (server, token.name) in creds.store || token.name in creds.environment
  }

  /** Resolution succeeds exactly when every variable resolves; otherwise the error names the leftmost that does not. */
  lemma {:induction false} ErrorIsLeftmost(creds: Credentials, server: string, tokens: seq<Token>)
    ensures Expand(creds, server, tokens).Ok? <==> forall i :: 0 <= i < |tokens| ==> Resolvable(creds, server, tokens[i])
    ensures Expand(creds, server, tokens).Err? ==>
              exists i :: 0 <= i < |tokens| && tokens[i].Var? && !Resolvable(creds, server, tokens[i])
                          && Expand(creds, server, tokens).error == CredentialResolution(server, tokens[i].name)
                          && forall j :: 0 <= j < i ==> Resolvable(creds, server, tokens[j])
  {
    if tokens != [] && Resolvable(creds, server, tokens[0]) {
      var rest := tokens[1..];
      ErrorIsLeftmost(creds, server, rest);
      assert forall i :: 0 < i < |tokens| ==> tokens[i] == rest[i - 1];
      assert forall i :: 0 <= i < |rest| ==> rest[i] == tokens[i + 1];
      if Expand(creds, server, rest).Err? {
        var i :| 0 <= i < |rest| && rest[i].Var? && !Resolvable(creds, server, rest[i])
                 && Expand(creds, server, rest).error == CredentialResolution(server, rest[i].name)
                 && forall j :: 0 <= j < i ==> Resolvable(creds, server, rest[j]);
        assert tokens[i + 1].Var? && !Resolvable(creds, server, tokens[i + 1]);
      }
    }
  }

  /** The text a token stands for: itself, or its variable's value, from the store if it has one and else from the environment. */
  ghost predicate StandsFor(creds: Credentials, server: string, token: Token, text: string) {
    match token
    case Lit(c) => text == [c]
    case Kept(kept) => text == kept
    case Var(name) =>
      if (server, name) in creds.store then text == creds.store[(server, name)]
      else name in creds.environment && text == creds.environment[name]
  }

  /** The result is the texts of the tokens, one for each, one after another. */
  lemma {:induction false} ExpansionIsPieces(creds: Credentials, server: string, tokens: seq<Token>) returns (pieces: seq<string>)
    requires Expand(creds, server, tokens).Ok?
    ensures |pieces| == |tokens| && Expand(creds, server, tokens).value == Flatten(pieces)
    ensures forall i :: 0 <= i < |tokens| ==> StandsFor(creds, server, tokens[i], pieces[i])
  {
    if tokens == [] {
      pieces := [];
    } else {
      var rest := ExpansionIsPieces(creds, server, tokens[1..]);
      var first := Rendered(creds, server, tokens[0]).value;
      pieces := [first] + rest;
      FlattenCons(first, rest);
      forall i | 0 <= i < |tokens|
        ensures StandsFor(creds, server, tokens[i], pieces[i])
      {
        if i > 0 { assert tokens[i] == tokens[1..][i - 1] && pieces[i] == rest[i - 1]; }
      }
    }
  }

  /** What registering adds: exactly the non-empty values of the variables met before the first that does not resolve. */
  ghost predicate RegisteredAt(creds: Credentials, server: string, tokens: seq<Token>, value: string, i: nat) {
    && i < |tokens| && tokens[i].Var? && value != "" && StandsFor(creds, server, tokens[i], value)
    && forall j :: 0 <= j < i ==> Resolvable(creds, server, tokens[j])
  }

  lemma {:induction false} RegistersExactly(creds: Credentials, server: string, tokens: seq<Token>, value: string)
    ensures value in Substituted(creds, server, tokens) <==> exists i :: RegisteredAt(creds, server, tokens, value, i)
  {
    if tokens != [] {
      var rest := tokens[1..];
      RegistersExactly(creds, server, rest, value);
      RegisteredThrough(creds, server, tokens, value);
      assert RegisteredAt(creds, server, tokens, value, 0) <==>
             tokens[0].Var? && value != "" && Rendered(creds, server, tokens[0]) == Some(value);
    }
  }

  lemma RegisteredThrough(creds: Credentials, server: string, tokens: seq<Token>, value: string)
    requires tokens != []
    ensures (exists i :: RegisteredAt(creds, server, tokens, value, i)) <==>
            || RegisteredAt(creds, server, tokens, value, 0)
            || (Resolvable(creds, server, tokens[0]) && exists i :: RegisteredAt(creds, server, tokens[1..], value, i))
  {
    var rest := tokens[1..];
    forall i: nat
      ensures RegisteredAt(creds, server, tokens, value, i + 1) <==>
              Resolvable(creds, server, tokens[0]) && RegisteredAt(creds, server, rest, value, i)
    {
      RegisteredLater(creds, server, tokens, value, i);
    }
    if i: nat :| RegisteredAt(creds, server, tokens, value, i) && i > 0 {
      assert RegisteredAt(creds, server, rest, value, i - 1);
    }
    if i: nat :| RegisteredAt(creds, server, rest, value, i) && Resolvable(creds, server, tokens[0]) {
      assert RegisteredAt(creds, server, tokens, value, i + 1);
    }
  }

  lemma RegisteredLater(creds: Credentials, server: string, tokens: seq<Token>, value: string, i: nat)
    requires tokens != []
    ensures RegisteredAt(creds, server, tokens, value, i + 1) <==>
            Resolvable(creds, server, tokens[0]) && RegisteredAt(creds, server, tokens[1..], value, i)
  {
    var rest := tokens[1..];
    assert forall j :: 0 <= j < |rest| ==> rest[j] == tokens[j + 1];
    if RegisteredAt(creds, server, tokens, value, i + 1) {
      forall j | 0 <= j < i
        ensures Resolvable(creds, server, rest[j])
      {
        assert Resolvable(creds, server, tokens[j + 1]);
      }
    }
    if Resolvable(creds, server, tokens[0]) && RegisteredAt(creds, server, rest, value, i) {
      forall j | 0 <= j < i + 1
        ensures Resolvable(creds, server, tokens[j])
      {
        if j > 0 { assert tokens[j] == rest[j - 1]; }
      }
    }
  }

  /**
   How a template is to be read: a literal never starts a `${`, and what is kept other than `${}`
   is an unclosed placeholder at the very end.
   */
  ghost predicate Reading(tokens: seq<Token>) {
    && (forall i :: 0 <= i < |tokens| ==> WellFormed(tokens[i]))
    && (forall i :: 0 <= i < |tokens| && tokens[i].Lit? ==> !(OPEN <= Sources(tokens[i..])))
    && (forall i :: 0 <= i < |tokens| && tokens[i].Kept? && tokens[i].text != "${}" ==> i == |tokens| - 1)
  }

  lemma ReadingOfRest(tokens: seq<Token>)
    requires tokens != [] && Reading(tokens)
    ensures Reading(tokens[1..])
  {
    var rest := tokens[1..];
    forall i | 0 <= i < |rest| && rest[i].Lit?
      ensures !(OPEN <= Sources(rest[i..]))
    {
      assert rest[i..] == tokens[i + 1..] && tokens[i + 1].Lit?;
    }
  }

  lemma ReadingOfMore(token: Token, rest: seq<Token>)
    requires Reading(rest) && WellFormed(token)
    requires token.Lit? ==> !(OPEN <= Source(token) + Sources(rest))
    requires token.Kept? && token.text != "${}" ==> rest == []
    ensures Reading([token] + rest)
  {
    var tokens := [token] + rest;
    SourcesCons(token, rest);
    forall i | 0 <= i < |tokens| && tokens[i].Lit?
      ensures !(OPEN <= Sources(tokens[i..]))
    {
      if i == 0 { assert tokens[0..] == tokens; } else { assert tokens[i..] == rest[i - 1..]; }
    }
  }

  /** Tokenising gives such a reading of the template, */
  lemma {:induction false} TokensAreAReading(raw: string)
    ensures Reading(Tokenize(raw)) && Sources(Tokenize(raw)) == raw
    decreases |raw|
  {
    TokensAreLossless(raw);
    TokensAreWellFormed(raw);
    if raw != "" {
      var token, rest := FirstToken(raw);
      TokensAreAReading(rest);
      assert ([token] + Tokenize(rest))[0] == token;
      assert token in Tokenize(raw);
      FirstTokenKind(raw, token, rest);
      ReadingOfMore(token, Tokenize(rest));
    }
  }

  lemma FirstTokenKind(raw: string, token: Token, rest: string)
    requires raw != "" && raw == Source(token) + rest && Tokenize(raw) == [token] + Tokenize(rest)
    ensures token.Lit? ==> !(OPEN <= raw)
    ensures token.Kept? && token.text != "${}" ==> Tokenize(rest) == []
  {
    assert Tokenize(raw)[0] == token;
  }

  /** and there is no other: any reading that spells the template is this one. */
  lemma {:induction false} ReadingIsUnique(tokens: seq<Token>)
    requires Reading(tokens)
    ensures Tokenize(Sources(tokens)) == tokens
    decreases |tokens|
  {
    if tokens != [] {
      var token, rest := tokens[0], tokens[1..];
      var raw := Sources(tokens);
      ReadingOfRest(tokens);
      ReadingIsUnique(rest);
      assert tokens[0..] == tokens;
      match token
      case Lit(c) =>
        assert raw == [c] + Sources(rest) && raw[1..] == Sources(rest);
      case Var(name) => VarIsRead(name, Sources(rest));
      case Kept(text) =>
        if text == "${}" {
          EmptyIsRead(Sources(rest));
        } else {
          assert rest == [] && raw == text + "" == text;
          UnclosedIsRead(text);
        }
      assert tokens == [token] + rest;
    }
  }

  lemma VarIsRead(name: string, after: string)
    requires name != "" && '}' !in name
    ensures Tokenize(OPEN + name + "}" + after) == [Var(name)] + Tokenize(after)
  {
    var raw := OPEN + name + "}" + after;
    var body := raw[2..];
    assert body == name + "}" + after;
    CloseAfter(name, after);
    assert body[..|name|] == name && body[|name| + 1..] == after;
  }

  lemma EmptyIsRead(after: string)
    ensures Tokenize("${}" + after) == [Kept("${}")] + Tokenize(after)
  {
    var raw := "${}" + after;
    assert raw[2..] == "" + "}" + after && raw[2..][1..] == after;
    CloseAfter("", after);
  }

  lemma UnclosedIsRead(text: string)
    requires OPEN <= text && '}' !in text
    ensures Tokenize(text) == [Kept(text)]
  {
    assert forall k :: 0 <= k < |text[2..]| ==> text[2..][k] == text[k + 2];
    assert '}' !in text[2..];
  }

  lemma {:induction false} CloseAfter(name: string, after: string)
    requires '}' !in name
    ensures FindClose(name + "}" + after) == Some(|name|)
    decreases |name|
  {
    var s := name + "}" + after;
    if name != "" {
      assert s[1..] == name[1..] + "}" + after;
      CloseAfter(name[1..], after);
    }
  }

  /** A template resolves to its text with every variable replaced by its value, in one pass. */
  lemma TemplateIsPieces(creds: Credentials, server: string, tokens: seq<Token>) returns (pieces: seq<string>)
    requires Reading(tokens) && ResolveTemplate(creds, server, Sources(tokens)).Ok?
    ensures |pieces| == |tokens| && ResolveTemplate(creds, server, Sources(tokens)).value == Flatten(pieces)
    ensures forall i :: 0 <= i < |tokens| ==> StandsFor(creds, server, tokens[i], pieces[i])
  {
    ReadingIsUnique(tokens);
    pieces := ExpansionIsPieces(creds, server, tokens);
  }

  predicate OpensAt(s: string, i: nat) {
    i + 2 <= |s| && s[i] == '$' && s[i + 1] == '{'
  }

  predicate HasOpen(s: string) {
    exists i :: 0 <= i < |s| && OpensAt(s, i)
  }

  /** Text without `${` is its own result and registers nothing: the fast path agrees with the scan. */
  lemma {:induction false} PlainTextUnchanged(creds: Credentials, server: string, raw: string)
    requires forall i: nat :: !OpensAt(raw, i)
    ensures ResolveTemplate(creds, server, raw) == Ok(raw) && Substituted(creds, server, Tokenize(raw)) == {}
    decreases |raw|
  {
    if raw != "" {
      assert !OpensAt(raw, 0);
      assert raw == [raw[0]] + raw[1..];
      forall i: nat
        ensures !OpensAt(raw[1..], i)
      {
        assert OpensAt(raw[1..], i) ==> OpensAt(raw, i + 1);
      }
      PlainTextUnchanged(creds, server, raw[1..]);
      assert Tokenize(raw)[1..] == Tokenize(raw[1..]);
    }
  }

  /** Every value a successful resolution substitutes is registered, unless it is empty. */
  lemma {:induction false} SubstitutionsAreRegistered(creds: Credentials, server: string, tokens: seq<Token>, i: nat)
    requires Expand(creds, server, tokens).Ok? && i < |tokens| && tokens[i].Var?
    ensures Resolvable(creds, server, tokens[i])
    ensures var value := Rendered(creds, server, tokens[i]).value;
            value != "" ==> value in Substituted(creds, server, tokens)
  {
    if i > 0 {
      SubstitutionsAreRegistered(creds, server, tokens[1..], i - 1);
    }
  }

  function Prepend(prefix: string, r: Result<string, ResolveError>): Result<string, ResolveError> {
    match r
    case Ok(s) => Ok(prefix + s)
    case Err(e) => Err(e)
  }

  lemma PrependNothing(r: Result<string, ResolveError>)
    ensures Prepend("", r) == r
  {
    if r.Ok? { assert "" + r.value == r.value; }
  }

  lemma PrependTwice(a: string, b: string, r: Result<string, ResolveError>)
    ensures Prepend(a, Prepend(b, r)) == Prepend(a + b, r)
  {
    if r.Ok? { assert a + (b + r.value) == (a + b) + r.value; }
  }

  /** The process-wide table of secrets to redact. */
  class SecretTable {
    var secrets: set<string>

    constructor ()
      ensures secrets == {}
    {
      secrets := {};
    }

    method Register(secret: string)
      modifies this
      ensures secrets == old(secrets) + if secret == "" then {} else {secret}
    {
      if secret == "" {
        return;
      }
      secrets := secrets + {secret};
    }

    /** Redacts in whatever order the set yields; the order used is some listing of the whole set. */
    method Redact(text: string) returns (out: string)
      ensures exists order :: ToSet(order) == secrets && out == RedactInOrder(text, order)
      ensures forall s :: s in secrets && s != "" && Apart(s) ==> !Contains(out, s)
    {
      out := text;
      var todo := secrets;
      ghost var order: seq<string> := [];
      while todo != {}
        invariant todo <= secrets && ToSet(order) == secrets - todo
        invariant out == RedactInOrder(text, order)
        decreases todo
      {
        var secret :| secret in todo;
        ghost var before := out;
        if secret != "" {
          out := Replace(out, secret);
        }
        RedactOneMore(text, order, secret);
        assert ToSet(order + [secret]) == ToSet(order) + {secret};
        order := order + [secret];
        todo := todo - {secret};
      }
      assert ToSet(order) == secrets;
      forall s | s in secrets && s != "" && Apart(s)
        ensures !Contains(out, s)
      {
        assert s in ToSet(order);
        RedactionIsComplete(text, order, s);
      }
    }

    /** One placeholder: substituted and registered, or kept as written when unclosed or empty. */
    method ResolvePlaceholder(creds: Credentials, server: string, raw: string, i: nat)
      returns (piece: Result<string, ResolveError>, next: nat)
      requires i + 2 <= |raw| && OPEN <= raw[i..]
      modifies this
      ensures i < next <= |raw|
      ensures piece.Ok? ==> ResolveTemplate(creds, server, raw[i..]) == Prepend(piece.value, ResolveTemplate(creds, server, raw[next..]))
      ensures piece.Err? ==> ResolveTemplate(creds, server, raw[i..]) == piece
      ensures secrets + (if piece.Ok? then Substituted(creds, server, Tokenize(raw[next..])) else {})
           == old(secrets) + Substituted(creds, server, Tokenize(raw[i..]))
    {
      var name, closed;
      name, closed, next := ScanName(raw, i + 2);
      if !closed || name == "" {
        KeptStep(creds, server, raw, i, name, closed, next);
        return Ok(OPEN + name + if closed then "}" else ""), next;
      }
      VarStep(creds, server, raw, i, name, next);
      var found := creds.Lookup(server, name);
      if found.None? {
        return Err(CredentialResolution(server, name)), next;
      }
      Register(found.value);
      return Ok(found.value), next;
    }

    /** Resolves a template, registering each substituted value as it goes. */
    method ResolveEnvValue(creds: Credentials, server: string, raw: string) returns (r: Result<string, ResolveError>)
      modifies this
      ensures r == ResolveTemplate(creds, server, raw)
      ensures secrets == old(secrets) + Substituted(creds, server, Tokenize(raw))
    {
      if !HasOpen(raw) {
        PlainTextUnchanged(creds, server, raw);
        return Ok(raw);
      }
      r := Scan(creds, server, raw);
    }

    method Scan(creds: Credentials, server: string, raw: string) returns (r: Result<string, ResolveError>)
      modifies this
      ensures r == ResolveTemplate(creds, server, raw)
      ensures secrets == old(secrets) + Substituted(creds, server, Tokenize(raw))
    {
      var i := 0;
      var result := "";
      assert raw[0..] == raw;
      PrependNothing(ResolveTemplate(creds, server, raw));
      while i < |raw|
        invariant 0 <= i <= |raw|
        invariant ResolveTemplate(creds, server, raw) == Prepend(result, ResolveTemplate(creds, server, raw[i..]))
        invariant secrets + Substituted(creds, server, Tokenize(raw[i..]))
               == old(secrets) + Substituted(creds, server, Tokenize(raw))
      {
        if raw[i] == '$' && i + 1 < |raw| && raw[i + 1] == '{' {
          assert OPEN <= raw[i..];
          var piece, next := ResolvePlaceholder(creds, server, raw, i);
          if piece.Err? {
            return piece;
          }
          PrependTwice(result, piece.value, ResolveTemplate(creds, server, raw[next..]));
          result := result + piece.value;
          i := next;
        } else {
          LitStep(creds, server, raw, i);
          PrependTwice(result, [raw[i]], ResolveTemplate(creds, server, raw[i + 1..]));
          result := result + [raw[i]];
          i := i + 1;
        }
      }
      assert raw[i..] == "" && result + "" == result;
      return Ok(result);
    }
  }

  lemma {:induction false} RedactOneMore(text: string, order: seq<string>, secret: string)
    ensures RedactInOrder(text, order + [secret]) ==
            if secret == "" then RedactInOrder(text, order) else Replace(RedactInOrder(text, order), secret)
    decreases |order|
  {
    var longer := order + [secret];
    if order == [] {
      assert longer[1..] == [];
    } else {
      assert longer[1..] == order[1..] + [secret];
      RedactOneMore(if order[0] == "" then text else Replace(text, order[0]), order[1..], secret);
    }
  }

  /** Collects characters up to the closing brace or the end of the template. */
  method ScanName(raw: string, start: nat) returns (name: string, closed: bool, next: nat)
    requires start <= |raw|
    ensures start <= next <= |raw|
    ensures match FindClose(raw[start..])
            case Some(j) => closed && name == raw[start..][..j] && next == start + j + 1
            case None => !closed && name == raw[start..] && next == |raw|
  {
    name, closed, next := "", false, start;
    while next < |raw|
      invariant start <= next <= |raw|
      invariant name == raw[start..next] && '}' !in name
      invariant !closed
    {
      var c := raw[next];
      next := next + 1;
      if c == '}' {
        closed := true;
        ghost var j := next - 1 - start;
        assert raw[start..][j] == '}';
        assert forall k :: 0 <= k < j ==> raw[start..][k] == name[k];
        return;
      }
      name := name + [c];
    }
  }

  lemma LitStep(creds: Credentials, server: string, raw: string, i: nat)
    requires i < |raw| && !(OPEN <= raw[i..])
    ensures Tokenize(raw[i..]) == [Lit(raw[i])] + Tokenize(raw[i + 1..])
    ensures ResolveTemplate(creds, server, raw[i..]) == Prepend([raw[i]], ResolveTemplate(creds, server, raw[i + 1..]))
    ensures Substituted(creds, server, Tokenize(raw[i..])) == Substituted(creds, server, Tokenize(raw[i + 1..]))
  {
  }

  lemma VarStep(creds: Credentials, server: string, raw: string, i: nat, name: string, next: nat)
    requires i + 2 <= |raw| && OPEN <= raw[i..] && name != ""
    requires FindClose(raw[i + 2..]) == Some(|name|) && name == raw[i + 2..][..|name|] && next == i + 3 + |name|
    ensures next <= |raw|
    ensures Tokenize(raw[i..]) == [Var(name)] + Tokenize(raw[next..])
    ensures Tokenize(raw[i..])[1..] == Tokenize(raw[next..])
  {
    assert raw[i..][2..] == raw[i + 2..];
    assert raw[i + 2..][|name| + 1..] == raw[next..];
  }

  lemma KeptStep(creds: Credentials, server: string, raw: string, i: nat, name: string, closed: bool, next: nat)
    requires i + 2 <= |raw| && OPEN <= raw[i..] && i + 2 <= next <= |raw|
    requires match FindClose(raw[i + 2..])
             case Some(j) => closed && j == 0 && name == "" && next == i + 3
             case None => !closed && name == raw[i + 2..] && next == |raw|
    ensures ResolveTemplate(creds, server, raw[i..])
         == Prepend(OPEN + name + (if closed then "}" else ""), ResolveTemplate(creds, server, raw[next..]))
    ensures Substituted(creds, server, Tokenize(raw[i..])) == Substituted(creds, server, Tokenize(raw[next..]))
  {
    var here := raw[i..];
    assert here[2..] == raw[i + 2..] && here == OPEN + here[2..];
    if closed {
      assert raw[i + 2..][1..] == raw[next..];
      assert Tokenize(here) == [Kept("${}")] + Tokenize(raw[next..]);
      assert Tokenize(here)[1..] == Tokenize(raw[next..]);
      assert OPEN + name + "}" == "${}";
    } else {
      assert raw[next..] == "";
      assert Tokenize(here) == [Kept(here)] && Tokenize(here)[1..] == [];
      assert here == OPEN + name + "";
      assert Expand(creds, server, Tokenize(here)[1..]) == Ok("");
    }
  }
}
