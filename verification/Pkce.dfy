/** Proof Key for Code Exchange with the S256 method (RFC 7636). */
module Pkce {
  import opened Text
  import opened Base64

  type Digest = d: seq<Octet> | |d| == 32 witness seq(32, _ => 0)

  /** SHA-256 of a string, left uninterpreted. */
  type Sha = string -> Digest

  /** code-verifier of section 4.1. */
  predicate Verifier(v: string) { 43 <= |v| <= 128 && forall c | c in v :: Unreserved(c) }

  lemma UnreservedExactly(c: char)
    ensures Unreserved(c) <==> c in ALPHABET || c == '.' || c == '~'
  {
    Alphabet(0);
    hide ALPHABET;
    if Value(c).Some? {
      LettersExactly(Value(c).value, c);
    }
    if c in ALPHABET {
      var v :| 0 <= v < |ALPHABET| && ALPHABET[v] == c;
      LettersExactly(v, c);
    }
  }

  /** The grammar, character by character: the base64url alphabet, the dot and the tilde. */
  lemma GrammarExactly(v: string)
    ensures Verifier(v)
       <==> 43 <= |v| <= 128 && forall i | 0 <= i < |v| :: v[i] in ALPHABET || v[i] == '.' || v[i] == '~'
  {
    hide Unreserved, ALPHABET;
    forall c: char ensures Unreserved(c) <==> c in ALPHABET || c == '.' || c == '~' {
      UnreservedExactly(c);
    }
  }

  /** What the regular expression accepts: `$` also matches before one final newline. */
  predicate RegexMatch(v: string) {
    Verifier(v) || (v != "" && v[|v| - 1] == '\n' && Verifier(v[..|v| - 1]))
  }

  /** Beyond the grammar, one newline at the end is let through, and nothing else. */
  lemma RegexExactly(v: string)
    ensures RegexMatch(v) <==> Verifier(v) || exists w :: Verifier(w) && v == w + "\n"
  {
    if v != "" && v[|v| - 1] == '\n' {
      assert v == v[..|v| - 1] + "\n";
    }
    forall w | Verifier(w) && v == w + "\n" ensures RegexMatch(v) {
      assert v[..|v| - 1] == w;
    }
  }

  /** The challenge of section 4.2. */
  function Challenge(sha: Sha, v: string): string { Unpadded(sha(v)) }

  function Trimmed(challenge: string): string { StripPad(Strip(challenge)) }

  /** The server's check. `None` is the `TypeError` that comparing a non-ASCII string raises. */
  function VerifyS256(sha: Sha, v: string, challenge: string): Option<bool> {
    if !RegexMatch(v) then Some(false)
    else if !Ascii(Trimmed(challenge)) then None
    else Some(StripPad(Unpadded(sha(v))) == Trimmed(challenge))
  }

  lemma ChallengeShape(sha: Sha, v: string)
    ensures |Challenge(sha, v)| == 43 && Ascii(Challenge(sha, v))
    ensures StripPad(Challenge(sha, v)) == Challenge(sha, v)
    ensures forall c | c in Challenge(sha, v) :: c != '=' && !IsSpace(c)
  {
    UnpaddedIsLetters(sha(v));
    var ch := Challenge(sha, v);
    forall i | 0 <= i < |ch| ensures ch[i] as int < 128 {
      assert ch[i] in ch;
    }
  }

  lemma TrimmedChallenge(sha: Sha, v: string, pre: string, pad: string, post: string)
    requires AllSpace(pre) && AllSpace(post) && AllPad(pad)
    ensures var sent := pre + Challenge(sha, v) + pad + post;
            Trimmed(sent) == Challenge(sha, v) && Trimmed(Strip(sent)) == Challenge(sha, v)
  {
    ChallengeShape(sha, v);
    var ch := Challenge(sha, v);
    var body := ch + pad;
    assert ch[0] in ch && ch[42] in ch;
    if pad != "" { assert pad[|pad| - 1] in pad; }
    assert pre + ch + pad + post == pre + body + post;
    StripPadded(pre, body, post);
    StripPadded("", body, "");
    assert "" + body + "" == body;
    StripPadSuffix(ch, pad);
  }

  /** Completeness: every verifier of the grammar matches its own challenge, however the challenge
      was padded with `=` or surrounded by whitespace when the authorization was requested, and
      also after the server has trimmed it for storage. */
  lemma OwnChallengeMatches(sha: Sha, v: string, pre: string, pad: string, post: string)
    requires Verifier(v)
    requires AllSpace(pre) && AllSpace(post) && AllPad(pad)
    ensures var sent := pre + Challenge(sha, v) + pad + post;
            VerifyS256(sha, v, sent) == Some(true) && VerifyS256(sha, v, Strip(sent)) == Some(true)
  {
    ChallengeShape(sha, v);
    TrimmedChallenge(sha, v, pre, pad, post);
  }

  /** Exactness: acceptance means the trimmed challenge is the 43-letter encoding of the digest. */
  lemma AcceptedExactly(sha: Sha, v: string, challenge: string)
    ensures VerifyS256(sha, v, challenge) == Some(true)
       <==> RegexMatch(v) && Trimmed(challenge) == Letters(sha(v))
    ensures VerifyS256(sha, v, challenge) == Some(true)
        ==> |Trimmed(challenge)| == 43 && Decode(Trimmed(challenge)) == Some(sha(v))
    ensures VerifyS256(sha, v, challenge) == None <==> RegexMatch(v) && !Ascii(Trimmed(challenge))
  {
    ChallengeShape(sha, v);
    UnpaddedIsLetters(sha(v));
    DecodeLetters(sha(v));
  }

  /** One challenge binds one digest. */
  lemma ChallengeBinds(sha: Sha, v: string, w: string, challenge: string)
    requires VerifyS256(sha, v, challenge) == Some(true) && VerifyS256(sha, w, challenge) == Some(true)
    ensures sha(v) == sha(w)
  {
    AcceptedExactly(sha, v, challenge);
    AcceptedExactly(sha, w, challenge);
  }

  /** The regular expression is wider than the grammar: a verifier followed by one newline is
      outside section 4.1, yet it matches its own challenge. */
  lemma TrailingNewlineMatches(sha: Sha, v: string)
    requires Verifier(v)
    ensures !Verifier(v + "\n") && VerifyS256(sha, v + "\n", Challenge(sha, v + "\n")) == Some(true)
  {
    var w := v + "\n";
    assert w[|v|] == '\n' && w[|v|] in w;
    assert w[..|w| - 1] == v;
    ChallengeShape(sha, w);
    TrimmedChallenge(sha, w, "", "", "");
    assert "" + Challenge(sha, w) + "" + "" == Challenge(sha, w);
  }
}
