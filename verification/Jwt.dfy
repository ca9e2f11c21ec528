/**
 Signed tokens as ideal tags: a token verifies exactly when its claims were signed before and it has
 not expired.  The signature, base64url and JSON layers are not modelled.
 */
module Jwt {
  import opened Options
  import opened OAuthStore
  import opened Strings

  /** The empty text.  `generateId` never answers it. */
  const EMPTY: Id := 0

  datatype Claims =
    | CodeClaims(iss: Text, aud: Text, jti: Id, clientId: Id, redirectUri: Text, scope: Text,
                 codeChallenge: Text, resource: Text, exp: int)
    | AccessClaims(iss: Text, sub: Id, aud: Text, scope: Text, jti: Id, resource: Text, exp: int)
    | RefreshClaims(iss: Text, sub: Id, aud: Text, scope: Text, jti: Id, familyId: Id, resource: Text, exp: int)

  /** How the opaque texts of the store read, and the texts the server derives from them. */
  datatype Texts = Texts(
    chars: Text -> string,          // the characters of a text
    s256: Text -> Text,             // base64url of SHA-256
    mcpOf: Text -> Text,            // `${base}/mcp`
    tokenEndpointOf: Text -> Text,  // `${base}/oauth/token`
    mcpRead: Text)                  // "mcp:read"
  {
    predicate Valid() { chars(mcpRead) == MCP_READ }
  }

  const MCP_READ := "mcp:read"

  /** `verifyJwt`: an `exp` of 0 is falsy and never expires; expiry itself is still accepted. */
  predicate Verifies(signed: set<Claims>, token: Claims, nowMs: int) {
    token in signed && !(token.exp != 0 && token.exp < Seconds(nowMs))
  }

  /** Appends a word unless it is empty. */
  function WithWord(words: seq<string>, word: string): seq<string> {
    if word == "" then words else words + [word]
  }

  /** `text.split(/\s+/).filter(item => item.length > 0)`, with `word` the word being read. */
  function WordsFrom(text: string, word: string): seq<string>
    decreases |text|
  {
    if text == "" then WithWord([], word)
    else if IsSpace(text[0]) then WithWord([], word) + WordsFrom(text[1..], "")
    else WordsFrom(text[1..], word + [text[0]])
  }

  function ScopeSet(text: string): set<string> { set w | w in WordsFrom(text, "") }

  /** `isAcceptedScope`: an absent or empty scope is accepted, otherwise its only word is mcp:read. */
  predicate IsAcceptedScope(scope: Option<string>) {
    scope.None? || scope.value == "" || (|ScopeSet(scope.value)| == 1 && MCP_READ in ScopeSet(scope.value))
  }

  datatype AccessTokenClaims = AccessTokenClaims(iss: Text, sub: Id, aud: Text, scope: Text)

  /** `validateMcpAccessTokenClaims`. */
  function ValidateMcpAccessToken(texts: Texts, token: Claims, issuer: Text, audience: Text,
          requiredScope: string): Option<AccessTokenClaims> {
    if !token.AccessClaims? then None
    else if token.iss != issuer then None
    else if token.aud != audience then None
    else if token.sub == EMPTY then None
    else if requiredScope !in ScopeSet(texts.chars(token.scope)) then None
    else Some(AccessTokenClaims(token.iss, token.sub, token.aud, token.scope))
  }

  lemma McpReadIsOneWord()
    ensures WordsFrom(MCP_READ, "") == [MCP_READ]
  {
    WordWithoutSpaces(MCP_READ, "");
    assert "" + MCP_READ == MCP_READ;
  }

  lemma {:induction false} WordWithoutSpaces(text: string, word: string)
    requires forall c :: c in text ==> !IsSpace(c)
    ensures WordsFrom(text, word) == WithWord([], word + text)
    decreases |text|
  {
    if text == "" {
      assert word + text == word;
    } else {
      WordWithoutSpaces(text[1..], word + [text[0]]);
      assert word + [text[0]] + text[1..] == word + text;
    }
  }

  /** From i to j the text has no white space, which stands on both sides or the text ends there. */
  ghost predicate WordAt(text: string, i: int, j: int) {
    && 0 <= i < j <= |text| && (forall k :: i <= k < j ==> !IsSpace(text[k]))
    && (i == 0 || IsSpace(text[i - 1])) && (j == |text| || IsSpace(text[j]))
  }

  ghost predicate HasWord(text: string, w: string) { exists i, j :: WordAt(text, i, j) && text[i..j] == w }

  ghost predicate NoSpaces(word: string) { forall k :: 0 <= k < |word| ==> !IsSpace(word[k]) }

  /** A word after the first white space is one of the rest. */
  lemma LaterWord(text: string, n: nat, rest: string, i: int, j: int)
    requires 0 < n <= |text| && IsSpace(text[n - 1]) && text[n..] == rest
    ensures WordAt(rest, i, j) <==> i >= 0 && WordAt(text, i + n, j + n)
    ensures WordAt(rest, i, j) ==> rest[i..j] == text[i + n..j + n]
  {
    assert |rest| == |text| - n && forall k :: 0 <= k < |rest| ==> rest[k] == text[k + n];
  }

  /** A word that begins before the first white space is all that stands before it. */
  lemma FirstWord(text: string, n: nat, i: int, j: int)
    requires n < |text| && IsSpace(text[n]) && NoSpaces(text[..n])
    ensures WordAt(text, i, j) && i <= n ==> i == 0 && j == n
    ensures n > 0 ==> WordAt(text, 0, n)
  {
    assert forall k :: 0 <= k < n ==> !IsSpace(text[k]) by {
      forall k | 0 <= k < n ensures !IsSpace(text[k]) { assert text[..n][k] == text[k]; }
    }
  }

  lemma WordIsFirstOrLater(text: string, n: nat, w: string)
    requires n < |text| && IsSpace(text[n]) && NoSpaces(text[..n]) && HasWord(text, w)
    ensures (w == text[..n] && n > 0) || HasWord(text[n + 1..], w)
  {
    var i, j :| WordAt(text, i, j) && text[i..j] == w;
    FirstWord(text, n, i, j);
    if i > n {
      LaterWord(text, n + 1, text[n + 1..], i - n - 1, j - n - 1);
    } else {
      assert text[0..n] == text[..n];
    }
  }

  lemma FirstOrLaterIsWord(text: string, n: nat, w: string)
    requires n < |text| && IsSpace(text[n]) && NoSpaces(text[..n])
    requires (w == text[..n] && n > 0) || HasWord(text[n + 1..], w)
    ensures HasWord(text, w)
  {
    if w == text[..n] && n > 0 {
      FirstWord(text, n, 0, n);
      assert text[0..n] == text[..n];
    } else {
      var rest := text[n + 1..];
      var i, j :| WordAt(rest, i, j) && rest[i..j] == w;
      LaterWord(text, n + 1, rest, i, j);
    }
  }

  /** The words of a text whose first white space follows `word`. */
  lemma WordsAfterSpace(word: string, space: char, rest: string, w: string)
    requires NoSpaces(word) && IsSpace(space)
    ensures HasWord(word + [space] + rest, w) <==> (w == word && word != "") || HasWord(rest, w)
  {
    var text := word + [space] + rest;
    assert text[|word| + 1..] == rest && text[..|word|] == word && text[|word|] == space;
    if HasWord(text, w) { WordIsFirstOrLater(text, |word|, w); }
    if (w == word && word != "") || HasWord(rest, w) { FirstOrLaterIsWord(text, |word|, w); }
  }

  lemma OneWord(word: string, w: string)
    requires NoSpaces(word)
    ensures HasWord(word, w) <==> w == word && word != ""
  {
    if HasWord(word, w) {
      var i, j :| WordAt(word, i, j) && word[i..j] == w;
      assert i == 0 && j == |word|;
    }
    if word != "" { assert WordAt(word, 0, |word|) && word[0..|word|] == word; }
  }

  lemma {:induction false} WordsWithStart(text: string, word: string, w: string)
    requires NoSpaces(word)
    ensures w in WordsFrom(text, word) <==> HasWord(word + text, w)
    decreases |text|
  {
    if text == "" {
      assert word + text == word;
      OneWord(word, w);
    } else if IsSpace(text[0]) {
      assert word + text == word + [text[0]] + text[1..];
      WordsAfterSpace(word, text[0], text[1..], w);
      WordsWithStart(text[1..], "", w);
      assert "" + text[1..] == text[1..];
    } else {
      WordsWithStart(text[1..], word + [text[0]], w);
      assert word + [text[0]] + text[1..] == word + text;
    }
  }

  /** The words of a scope are the longest stretches without white space. */
  lemma ScopesAreWords(text: string, w: string)
    ensures w in ScopeSet(text) <==> HasWord(text, w)
  {
    WordsWithStart(text, "", w);
    assert "" + text == text;
  }

  /** The scope recorded for an accepted request always grants mcp:read. */
  lemma AcceptedScopeGrantsRead(scope: Option<string>)
    requires IsAcceptedScope(scope)
    ensures var recorded := if scope.None? || scope.value == "" then MCP_READ else scope.value;
            ScopeSet(recorded) == {MCP_READ}
  {
    McpReadIsOneWord();
    if scope.Some? && scope.value != "" {
      var words := ScopeSet(scope.value);
      assert |words - {MCP_READ}| == 0;
    }
  }

  /** `verifyPkceS256`. */
  predicate VerifyPkceS256(texts: Texts, verifier: Text, challenge: Text) {
    texts.s256(verifier) == challenge
  }
}
