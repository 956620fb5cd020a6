// Which keys of a logged tree are masked, and how, spelled out on keys and values as they are written.
module MaskingRules {
  import opened Strings
  import opened Anonymizer

  // ---------- Keys ----------

  predicate SameLetter(c: char, lower: char) {
    c == lower || ('A' <= c <= 'Z' && c as int + 32 == lower as int)
  }

  // A key mentions a lower-case word somewhere, in letters of any case.
  predicate Mentions(key: string, word: string) {
    exists i: nat | i <= |key| :: MentionsAt(key, word, i)
  }

  predicate MentionsAt(key: string, word: string, i: nat) {
    i + |word| <= |key| && forall j | 0 <= j < |word| :: SameLetter(key[i + j], word[j])
  }

  predicate StandsAt(s: string, part: string, i: nat) {
    i + |part| <= |s| && s[i..i + |part|] == part
  }

  predicate IsLower(word: string) {
    forall c | c in word :: 'a' <= c <= 'z'
  }

  lemma StandsInTail(s: string, part: string, i: nat)
    requires s != ""
    ensures StandsAt(s, part, i + 1) <==> StandsAt(s[1..], part, i)
  {
    if i + 1 + |part| <= |s| {
      assert s[1..][i..i + |part|] == s[i + 1..i + 1 + |part|];
    }
  }

  lemma {:induction false} IncludesSomewhere(s: string, part: string)
    ensures Includes(s, part) <==> exists i: nat | i <= |s| :: StandsAt(s, part, i)
  {
    assert part <= s <==> StandsAt(s, part, 0);
    hide StandsAt;
    if s != "" {
      IncludesSomewhere(s[1..], part);
      if i: nat :| i <= |s[1..]| && StandsAt(s[1..], part, i) {
        StandsInTail(s, part, i);
        assert StandsAt(s, part, i + 1);
      }
      if i: nat :| i <= |s| && StandsAt(s, part, i) {
        if i > 0 {
          StandsInTail(s, part, i - 1);
          assert StandsAt(s[1..], part, i - 1);
        }
      }
    }
  }

  lemma MatchesAt(key: string, word: string, i: nat)
    requires IsLower(word)
    ensures StandsAt(ToLower(key), word, i) <==> MentionsAt(key, word, i)
  {
    if i + |word| <= |key| {
      var lower := ToLower(key);
      forall j | 0 <= j < |word|
        ensures lower[i + j] == word[j] <==> SameLetter(key[i + j], word[j])
      {
        assert word[j] in word;
      }
      var part := lower[i..i + |word|];
      assert forall j | 0 <= j < |word| :: part[j] == lower[i + j];
    }
  }

  lemma IncludesMentions(key: string, word: string)
    requires IsLower(word)
    ensures Includes(ToLower(key), word) <==> Mentions(key, word)
  {
    hide ToLower;
    hide MentionsAt;
    hide StandsAt;
    IncludesSomewhere(ToLower(key), word);
    forall i: nat | i <= |key|
      ensures StandsAt(ToLower(key), word, i) <==> MentionsAt(key, word, i)
    {
      MatchesAt(key, word, i);
    }
  }

  lemma KeysMention(key: string)
    ensures IsEmailKey(key) <==> Mentions(key, "email")
    ensures IsNameKey(key) <==> Mentions(key, "name") && !Mentions(key, "email")
    ensures Includes(ToLower(key), "password") <==> Mentions(key, "password")
  {
    hide Includes;
    hide Mentions;
    IncludesMentions(key, "email");
    IncludesMentions(key, "name");
    IncludesMentions(key, "password");
  }

  // Keys masked as they stand, in just this spelling.
  predicate IsListed(key: string) {
    key in [
      "email", "customerEmail", "name", "firstName", "lastName", "phone", "phoneNumber", "address", "street", "city",
      "postalCode", "zipCode", "ssn", "taxId", "cardNumber", "cvv", "password", "secret", "token"]
  }

  predicate IsMasked(key: string) {
    IsListed(key) || Mentions(key, "email") || Mentions(key, "password")
  }

  // ---------- Values ----------

  // An address of a local part, a first label and further labels keeps the first characters and the further
  // labels.
  lemma MaskedAddress(local: string, domain: string, tail: string)
    requires local != "" && domain != ""
    requires '@' !in local && '@' !in domain && '@' !in tail && '.' !in domain
    ensures MaskEmail(local + "@" + domain + "." + tail) == [local[0]] + "***@" + [domain[0]] + "***." + tail
    ensures MaskEmail(local + "@" + domain) == [local[0]] + "***@" + [domain[0]] + "***."
  {
    AddressSplits(local, domain + "." + tail);
    AddressSplits(local, domain);
    assert local + "@" + (domain + "." + tail) == local + "@" + domain + "." + tail;
    assert domain + ['.'] + tail == domain + "." + tail;
    SplitFirst(domain, '.', tail);
    SplitWhole(domain, '.');
    JoinOfSplit(tail, '.');
    assert ([domain] + Split(tail, '.'))[1..] == Split(tail, '.');
  }

  lemma AddressSplits(local: string, domain: string)
    requires '@' !in local && '@' !in domain
    ensures Split(local + "@" + domain, '@') == [local, domain]
  {
    SplitFirst(local, '@', domain);
    SplitWhole(domain, '@');
    assert local + ['@'] + domain == local + "@" + domain;
  }

  // A text with no @, or with more than one, is hidden altogether.
  lemma NoAddress(first: string, second: string, rest: string)
    requires '@' !in first && '@' !in second
    ensures MaskEmail(first) == "[REDACTED]"
    ensures MaskEmail(first + "@" + second + "@" + rest) == "[REDACTED]"
  {
    SplitWhole(first, '@');
    SplitFirst(first, '@', second + "@" + rest);
    SplitFirst(second, '@', rest);
    assert second + ['@'] + rest == second + "@" + rest;
    assert first + ['@'] + (second + "@" + rest) == first + "@" + second + "@" + rest;
  }

  // A name keeps the first character of each word.
  lemma MaskedName(word: string, rest: string)
    requires word != "" && ' ' !in word
    ensures MaskName(word) == [word[0]] + "***"
    ensures MaskName(word + " " + rest) == [word[0]] + "*** " + MaskName(rest)
  {
    SplitWhole(word, ' ');
    SplitFirst(word, ' ', rest);
    assert word + [' '] + rest == word + " " + rest;
    var words := MaskWords([word] + Split(rest, ' '));
    assert words[1..] == MaskWords(Split(rest, ' '));
  }

  // ---------- Records ----------

  // In any record, at any depth, each entry keeps its key and its place. Its value is logged as it would be on its
  // own, unless the key is listed or mentions an email or a password. Then, whatever it holds, it becomes a text:
  // an address under a key that mentions an email, a name under other keys that mention a name, and the redaction
  // text in all other cases and for all values that are no texts.
  lemma EntryIsLogged(entries: seq<Entry>, i: nat)
    requires i < |entries|
    ensures var key, value := entries[i].key, entries[i].value;
      var logged := Anonymize(Obj(entries));
      && logged.Obj? && |logged.entries| == |entries| && logged.entries[i].key == key
      && var shown := logged.entries[i].value;
      && (!IsMasked(key) ==> shown == Anonymize(value))
      && (IsMasked(key) && !value.Str? ==> shown == Str("[REDACTED]"))
      && (Mentions(key, "email") && value.Str? ==> shown == Str(MaskEmail(value.text)))
      && (IsMasked(key) && !Mentions(key, "email") && Mentions(key, "name") && value.Str? ==>
            shown == Str(MaskName(value.text)))
      && (IsMasked(key) && !Mentions(key, "email") && !Mentions(key, "name") ==> shown == Str("[REDACTED]"))
  {
    hide Mentions;
    hide Includes;
    KeysMention(entries[i].key);
    assert IsPii(entries[i].key) <==> IsMasked(entries[i].key);
    assert Anonymize(Obj(entries)).entries[i] == AnonymizeEntry(entries[i]);
  }

  // Outside records nothing is masked.
  lemma OthersAreLogged(data: Json)
    requires !data.Obj?
    ensures !data.Arr? ==> Anonymize(data) == data
    ensures data.Arr? ==>
      && Anonymize(data).Arr? && |Anonymize(data).items| == |data.items|
      && forall i | 0 <= i < |data.items| :: Anonymize(data).items[i] == Anonymize(data.items[i])
  {
  }
}
