// The signatures cached answers are filed under, and the range scan over them.
module CacheKeys {
  import opened Wrappers
  import opened Text
  import opened CanonicalJson
  import opened CanonicalInjective

  datatype CacheKey = CacheKey(namespace: string, pathTag: string, promptHash: string)

  const CHAT_PATH := "/v1/chat/completions"
  const MESSAGES_PATH := "/v1/messages"
  const RESPONSES_PATH := "/v1/responses"

  predicate IsCacheable(path: string) {
    path == CHAT_PATH || path == MESSAGES_PATH || path == RESPONSES_PATH
  }

  predicate IsSlash(c: char) {
    c == '/'
  }

  function Replace(s: string, from: char, to: char): (r: string)
    ensures |r| == |s|
    ensures forall i :: 0 <= i < |s| ==> r[i] == if s[i] == from then to else s[i]
  {
    seq(|s|, i requires 0 <= i < |s| => if s[i] == from then to else s[i])
  }

  function PathTag(path: string): string {
    Replace(TrimStart(path, IsSlash), '/', ':')
  }

  function KeyFor(hash: string -> string, namespace: string, path: string, body: Document): CacheKey {
    CacheKey(namespace, PathTag(path), hash(Canonical(body)))
  }

  function KeyText(k: CacheKey): string {
    k.namespace + ":" + k.pathTag + ":" + k.promptHash
  }

  function Signature(k: CacheKey): string {
    "x:" + KeyText(k)
  }

  function VectorSignature(k: CacheKey): string {
    "v:" + KeyText(k)
  }

  function VectorPrefix(k: CacheKey): string {
    "v:" + k.namespace + ":" + k.pathTag + ":"
  }

  function AnswerSignatureOf(vectorSignature: string): Option<string> {
    if "v:" <= vectorSignature then Some("x:" + vectorSignature[2..]) else None
  }

  // The answer's signature is the vector's with the letter in front exchanged.
  lemma LetterIsExchanged(s: string, rest: string)
    ensures s == "v:" + rest ==> AnswerSignatureOf(s) == Some("x:" + rest)
    ensures !("v:" <= s) ==> AnswerSignatureOf(s).None?
  {
  }

  // Namespaces and hashes are hex digits or the word for an open gateway.
  predicate IsKey(k: CacheKey) {
    ':' !in k.namespace && ':' !in k.promptHash
  }

  // ---- Signatures take apart in one way ---------------------------------------

  // The namespace ends at the first colon and the hash starts after the last one, so
  // the path tag may hold as many as it likes.
  lemma KeyTextUnique(k: CacheKey, l: CacheKey)
    requires IsKey(k) && IsKey(l) && KeyText(k) == KeyText(l)
    ensures k == l
  {
    KeyTextParts(k);
    KeyTextParts(l);
  }

  lemma KeyTextParts(k: CacheKey)
    requires IsKey(k)
    ensures SplitOnce(KeyText(k), ':') == Some((k.namespace, k.pathTag + ":" + k.promptHash))
    ensures RSplitOnce(k.pathTag + ":" + k.promptHash, ':') == Some((k.pathTag, k.promptHash))
  {
    assert KeyText(k) == k.namespace + [':'] + (k.pathTag + ":" + k.promptHash);
    SplitOnceAt(k.namespace, ':', k.pathTag + ":" + k.promptHash);
    var tail := k.pathTag + [':'] + k.promptHash;
    FindLastAt(k.pathTag, ':', k.promptHash);
    assert tail[..|k.pathTag|] == k.pathTag && tail[|k.pathTag| + 1..] == k.promptHash;
  }

  lemma SignatureUnique(k: CacheKey, l: CacheKey)
    requires IsKey(k) && IsKey(l)
    ensures Signature(k) == Signature(l) <==> k == l
    ensures VectorSignature(k) == VectorSignature(l) <==> k == l
    ensures Signature(k) != VectorSignature(l)
    ensures AnswerSignatureOf(VectorSignature(k)) == Some(Signature(k))
  {
    if Signature(k) == Signature(l) {
      CutPrefix("x:", KeyText(k), KeyText(l));
      KeyTextUnique(k, l);
    }
    if VectorSignature(k) == VectorSignature(l) {
      CutPrefix("v:", KeyText(k), KeyText(l));
      KeyTextUnique(k, l);
    }
    assert Signature(k)[0] == 'x' && VectorSignature(l)[0] == 'v';
    assert VectorSignature(k)[2..] == KeyText(k);
  }

  // The three cacheable verbs have three tags.
  lemma PathTags()
    ensures PathTag(CHAT_PATH) == "v1:chat:completions"
    ensures PathTag(MESSAGES_PATH) == "v1:messages"
    ensures PathTag(RESPONSES_PATH) == "v1:responses"
  {
    assert TrimStart(CHAT_PATH, IsSlash) == CHAT_PATH[1..];
    assert TrimStart(MESSAGES_PATH, IsSlash) == MESSAGES_PATH[1..];
    assert TrimStart(RESPONSES_PATH, IsSlash) == RESPONSES_PATH[1..];
  }

  lemma PathTagUnique(p: string, q: string)
    requires IsCacheable(p) && IsCacheable(q)
    ensures PathTag(p) == PathTag(q) <==> p == q
    ensures PathTag(p) + ":" <= PathTag(q) + ":" ==> p == q
  {
    PathTags();
    assert "v1:chat:completions"[3] != "v1:messages"[3];
    assert "v1:chat:completions"[3] != "v1:responses"[3];
    assert "v1:messages"[3] != "v1:responses"[3];
    var (a, b) := (PathTag(p), PathTag(q));
    assert (a + ":")[3] == a[3] && (b + ":")[3] == b[3];
    assert a + ":" <= b + ":" ==> (a + ":")[3] == (b + ":")[3];
  }

  // With a hash that never collides, two requests share an exact key exactly when
  // they come from one namespace, to one path, with one JSON value.
  lemma ExactKeyIsTheRequest(hash: string -> string, n: string, p: string, a: Document,
                             m: string, q: string, b: Document)
    requires forall s, t {:trigger hash(s), hash(t)} :: hash(s) == hash(t) ==> s == t
    requires forall s :: ':' !in hash(s)
    requires ':' !in n && ':' !in m && IsCacheable(p) && IsCacheable(q) && WellFormed(a) && WellFormed(b)
    ensures Signature(KeyFor(hash, n, p, a)) == Signature(KeyFor(hash, m, q, b))
            <==> n == m && p == q && Denote(a) == Denote(b)
  {
    SignatureUnique(KeyFor(hash, n, p, a), KeyFor(hash, m, q, b));
    PathTagUnique(p, q);
    CanonicalIsInjective(a, b);
  }

  // ---- The range scan ---------------------------------------------------------

  // The byte after the last one, computed in eight bits.
  function UpperBound(prefix: string): string {
    if prefix == [] then []
    else prefix[..|prefix| - 1] + [((prefix[|prefix| - 1] as int % 256 + 1) % 256) as char]
  }

  predicate InRange(s: string, prefix: string) {
    !Less(s, prefix) && Less(s, UpperBound(prefix))
  }

  lemma {:induction false} RangeOf(q: string, c: char, d: char, s: string)
    requires d as int == c as int + 1
    ensures !Less(s, q + [c]) && Less(s, q + [d]) <==> q + [c] <= s
  {
    if q == [] {
      assert [] + [c] == [c] && [] + [d] == [d];
      assert [c] <= s <==> s != [] && s[0] == c;
      assert Less(s, [c]) <==> s == [] || s[0] < c;
      assert Less(s, [d]) <==> s == [] || s[0] < d;
    } else {
      assert (q + [c])[1..] == q[1..] + [c] && (q + [d])[1..] == q[1..] + [d];
      assert q + [c] <= s ==> s != [] && s[0] == q[0];
      if s != [] && s[0] == q[0] {
        RangeOf(q[1..], c, d, s[1..]);
        assert q[1..] + [c] <= s[1..] <==> q + [c] <= s;
      }
    }
  }

  // The scanned range is exactly the strings that start with the prefix, as long as
  // the prefix ends in a character below U+00FF; a colon does. Otherwise it is empty.
  lemma RangeIsPrefix(prefix: string, s: string)
    requires prefix != []
    ensures prefix[|prefix| - 1] as int < 255 ==> (InRange(s, prefix) <==> prefix <= s)
    ensures prefix[|prefix| - 1] as int >= 255 ==> !InRange(s, prefix)
  {
    var (q, c) := (prefix[..|prefix| - 1], prefix[|prefix| - 1]);
    assert prefix == q + [c];
    if c as int < 255 {
      RangeOf(q, c, (c as int + 1) as char, s);
    } else {
      var d := ((c as int % 256 + 1) % 256) as char;
      Below(q, d, c);
      if Less(s, q + [d]) {
        LessTransitive(s, q + [d], q + [c]);
      }
    }
  }

  lemma {:induction false} Below(q: string, c: char, d: char)
    requires c < d
    ensures Less(q + [c], q + [d])
  {
    if q == [] {
      assert [] + [c] == [c] && [] + [d] == [d];
    } else {
      assert (q + [c])[1..] == q[1..] + [c] && (q + [d])[1..] == q[1..] + [d];
      Below(q[1..], c, d);
    }
  }

  // A vector in a caller's range was filed by the same namespace for the same verb.
  lemma RangeIsolates(k: CacheKey, l: CacheKey, p: string, q: string)
    requires IsKey(k) && IsKey(l) && IsCacheable(p) && IsCacheable(q)
    requires k.pathTag == PathTag(p) && l.pathTag == PathTag(q)
    ensures InRange(VectorSignature(l), VectorPrefix(k)) <==> l.namespace == k.namespace && q == p
  {
    var (prefix, s) := (VectorPrefix(k), VectorSignature(l));
    RangeIsPrefix(prefix, s);
    StartsWithPrefix(l);
    if prefix <= s {
      PrefixIsolates(k, l);
      PathTagUnique(p, q);
    }
  }

  lemma StartsWithPrefix(l: CacheKey)
    ensures VectorPrefix(l) <= VectorSignature(l)
  {
    assert VectorSignature(l) == VectorPrefix(l) + l.promptHash;
  }

  lemma PrefixIsolates(k: CacheKey, l: CacheKey)
    requires IsKey(k) && IsKey(l) && VectorPrefix(k) <= VectorSignature(l)
    ensures k.namespace == l.namespace
    ensures k.pathTag + ":" <= l.pathTag + ":"
  {
    var rest := VectorSignature(l)[|VectorPrefix(k)|..];
    assert VectorSignature(l) == VectorPrefix(k) + rest;
    assert VectorPrefix(k) + rest == "v:" + (k.namespace + ":" + (k.pathTag + ":" + rest));
    CutPrefix("v:", KeyText(l), k.namespace + ":" + (k.pathTag + ":" + rest));
    KeyTextParts(l);
    SplitOnceAt(k.namespace, ':', k.pathTag + ":" + rest);
    assert k.pathTag + ":" + rest == l.pathTag + ":" + l.promptHash;
    TagPrefix(k.pathTag, rest, l.pathTag, l.promptHash);
  }

  lemma TagPrefix(a: string, rest: string, b: string, h: string)
    requires a + ":" + rest == b + ":" + h && ':' !in h
    ensures a + ":" <= b + ":"
  {
    var whole := a + ":" + rest;
    assert whole[|a|] == ':';
    assert forall i :: |b| < i < |whole| ==> whole[i] == h[i - |b| - 1];
    assert whole[..|a| + 1] == a + ":" && whole[..|b| + 1] == b + ":";
  }
}
