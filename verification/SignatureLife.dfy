/** How long a cached signature lives and which models share it, with the times and names written out. */
module SignatureLife {
  import opened Text
  import opened SignatureCache

  // ----- which models share signatures -----

  predicate StandsAt(s: string, i: int, sub: string) {
    0 <= i && i + |sub| <= |s| && s[i..i + |sub|] == sub
  }

  ghost predicate Mentions(model: string, name: string) {
    exists i :: StandsAt(model, i, name)
  }

  ghost predicate IsGpt(model: string) { Mentions(model, "gpt") }
  ghost predicate IsClaude(model: string) { !IsGpt(model) && Mentions(model, "claude") }
  ghost predicate IsGemini(model: string) { !IsGpt(model) && !IsClaude(model) && Mentions(model, "gemini") }

  /** Models share signatures within the three families; any other model shares them with none. */
  ghost predicate Sharing(a: string, b: string) {
    a == b || (IsGpt(a) && IsGpt(b)) || (IsClaude(a) && IsClaude(b)) || (IsGemini(a) && IsGemini(b))
  }

  lemma {:induction false} ContainsExactly(s: string, sub: string)
    ensures Contains(s, sub) <==> Mentions(s, sub)
  {
    if sub <= s {
      assert StandsAt(s, 0, sub);
    } else if s != [] {
      ContainsExactly(s[1..], sub);
      if i :| StandsAt(s[1..], i, sub) {
        assert s[1..][i..i + |sub|] == s[i + 1..i + 1 + |sub|];
        assert StandsAt(s, i + 1, sub);
      }
      if i :| StandsAt(s, i, sub) {
        assert i != 0 ==> s[1..][i - 1..i - 1 + |sub|] == s[i..i + |sub|];
        assert i != 0 && StandsAt(s[1..], i - 1, sub);
      }
    } else {
      assert sub != [];
    }
  }

  lemma MissingLetter(s: string, sub: string, k: nat)
    requires k < |sub| && sub[k] !in s
    ensures !Mentions(s, sub)
  {
    forall i | 0 <= i && i + |sub| <= |s| ensures !StandsAt(s, i, sub) {
      assert s[i..i + |sub|][k] == s[i + k];
    }
  }

  lemma MentionsItself(s: string)
    ensures Mentions(s, s)
  {
    assert StandsAt(s, 0, s);
  }

  lemma FamilyNames()
    ensures IsGpt("gpt") && IsClaude("claude") && IsGemini("gemini")
  {
    MentionsItself("gpt");
    MentionsItself("claude");
    MentionsItself("gemini");
    MissingLetter("claude", "gpt", 1);
    MissingLetter("gemini", "gpt", 1);
    MissingLetter("gemini", "claude", 1);
  }

  lemma GroupOf(model: string)
    ensures GetModelGroup(model) == if IsGpt(model) then "gpt" else if IsClaude(model) then "claude"
                                    else if IsGemini(model) then "gemini" else model
  {
    ContainsExactly(model, "gpt");
    ContainsExactly(model, "claude");
    ContainsExactly(model, "gemini");
  }

  lemma SharingExactly(a: string, b: string)
    ensures GetModelGroup(a) == GetModelGroup(b) <==> Sharing(a, b)
    ensures GetModelGroup(a) == "gemini" <==> IsGemini(a)
  {
    GroupOf(a);
    GroupOf(b);
    FamilyNames();
    assert |"gpt"| != |"claude"| && |"gpt"| != |"gemini"| && "claude"[0] != "gemini"[0];
    hide IsGpt, IsClaude, IsGemini, GetModelGroup;
  }

  // ----- how long a signature lives -----

  /** The bytes of a character in UTF-8, section 3 of RFC 3629. */
  function Utf8(c: char): seq<int> {
    var n := c as int;
    if n < 0x80 then [n]
    else if n < 0x800 then [0xC0 + n / 0x40, 0x80 + n % 0x40]
    else if n < 0x10000 then [0xE0 + n / 0x1000, 0x80 + n / 0x40 % 0x40, 0x80 + n % 0x40]
    else [0xF0 + n / 0x40000, 0x80 + n / 0x1000 % 0x40, 0x80 + n / 0x40 % 0x40, 0x80 + n % 0x40]
  }

  function Encoded(s: string): seq<int> {
    if s == [] then [] else Utf8(s[0]) + Encoded(s[1..])
  }

  lemma {:induction false} BytesExactly(s: string)
    ensures ByteLength(s) == |Encoded(s)|
  {
    if s == [] {
    } else {
      BytesExactly(s[1..]);
    }
  }

  /** The answer without a signature. */
  ghost function NoSignature(model: string): string {
    if IsGemini(model) then "skip_thought_signature_validator" else ""
  }

  lemma FallbackExactly(model: string)
    ensures Fallback(GetModelGroup(model)) == NoSignature(model)
  {
    SharingExactly(model, model);
  }

  /** A signature is valid if it has fifty bytes, or is the one that "gemini" models are told to skip. */
  lemma ValidExactly(model: string, signature: string)
    ensures HasValidSignature(model, signature) <==>
      |Encoded(signature)| >= 50 || (signature == "skip_thought_signature_validator" && IsGemini(model))
  {
    BytesExactly(signature);
    SharingExactly(model, model);
    hide GetModelGroup, IsGemini;
  }

  /** After a signature of at least fifty bytes is stored for a text, all models that share signatures get it for
      that text within three hours, and none after; other reads go as before. */
  lemma ReadAfterStore(b: Buckets, model: string, text: string, hash: string, signature: string, stored: int,
          reader: string, wanted: string, wantedHash: string, now: int)
    requires wanted == text ==> wantedHash == hash
    ensures Read(Put(b, GetModelGroup(model), text, hash, signature, stored), GetModelGroup(reader), wanted, wantedHash,
              now) ==
      if text == "" || |Encoded(signature)| < 50 || wanted == "" || !Sharing(model, reader) || hash != wantedHash
      then Read(b, GetModelGroup(reader), wanted, wantedHash, now)
      else if now - stored <= 3 * 60 * 60 * 1_000_000_000 then signature else NoSignature(reader)
  {
    BytesExactly(signature);
    SharingExactly(model, reader);
    FallbackExactly(reader);
    hide GetModelGroup, Sharing, ByteLength, Encoded, NoSignature, Fallback;
  }

  /** A read that finds a signature gives it three more hours, and a read that finds it too old ends it. */
  lemma ReadAfterRead(b: Buckets, model: string, text: string, hash: string, read: int, now: int)
    requires read <= now && Stored(b, GetModelGroup(model), hash) && text != ""
    ensures var group := GetModelGroup(model);
      var e := b[group][hash];
      Read(Touch(b, group, text, hash, read), group, text, hash, now) ==
        if read - e.touched <= 3 * 60 * 60 * 1_000_000_000 && now - read <= 3 * 60 * 60 * 1_000_000_000
        then e.signature else NoSignature(model)
  {
    FallbackExactly(model);
    hide GetModelGroup, NoSignature, Fallback;
  }

  /** A read for one text, or one family, changes no other answer. */
  lemma ReadElsewhere(b: Buckets, model: string, text: string, hash: string, read: int, reader: string,
          wanted: string, wantedHash: string, now: int)
    requires !Sharing(model, reader) || hash != wantedHash
    ensures Read(Touch(b, GetModelGroup(model), text, hash, read), GetModelGroup(reader), wanted, wantedHash, now) ==
      Read(b, GetModelGroup(reader), wanted, wantedHash, now)
  {
    SharingExactly(model, reader);
    hide GetModelGroup, Sharing, Fallback;
  }

  /** After clearing for a model those that share its signatures find none, others what they did; without a model
      nobody finds any. */
  lemma ReadAfterClear(b: Buckets, model: string, reader: string, wanted: string, wantedHash: string, now: int)
    ensures Read(Clear(b, model), GetModelGroup(reader), wanted, wantedHash, now) ==
      if model == "" || Sharing(model, reader) then NoSignature(reader)
      else Read(b, GetModelGroup(reader), wanted, wantedHash, now)
  {
    SharingExactly(model, reader);
    FallbackExactly(reader);
    hide GetModelGroup, Sharing, NoSignature, Fallback;
  }
}
