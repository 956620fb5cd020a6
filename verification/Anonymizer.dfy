// Masking personal data in JSON trees before they are logged
// (packages/api/src/audit/audit.interceptor.ts, anonymizePII).
module Anonymizer {
  import opened Strings

  // An object is the list of its entries in order; its keys are distinct.
  datatype Json =
    | Undefined | Null | Bool(truth: bool) | Number(number: real) | Str(text: string)
    | Arr(items: seq<Json>) | Obj(entries: seq<Entry>)

  datatype Entry = Entry(key: string, value: Json)

  const PII_FIELDS: set<string> := {
    "email", "customerEmail", "name", "firstName", "lastName", "phone", "phoneNumber", "address", "street",
    "city", "postalCode", "zipCode", "ssn", "taxId", "cardNumber", "cvv", "password", "secret", "token"
  }

  const REDACTED := "[REDACTED]"

  predicate IsEmailKey(key: string) {
    Includes(ToLower(key), "email")
  }

  predicate IsNameKey(key: string) {
    !IsEmailKey(key) && Includes(ToLower(key), "name")
  }

  predicate IsPii(key: string) {
    key in PII_FIELDS || IsEmailKey(key) || Includes(ToLower(key), "password")
  }

  // The first character in a template; reading it from an empty string prints as "undefined".
  function FirstOf(s: string): (first: string)
    ensures first != "" && |first| == if s == "" then 9 else 1
  {
    if s == "" then "undefined" else [s[0]]
  }

  // The local part, the first label of the domain, and the rest of the domain, of an address with one @.
  predicate IsAddress(text: string) {
    |Split(text, '@')| == 2
  }

  function Local(text: string): string
    requires IsAddress(text)
  {
    Split(text, '@')[0]
  }

  function Labels(text: string): (labels: seq<string>)
    requires IsAddress(text)
    ensures labels != []
  {
    Split(Split(text, '@')[1], '.')
  }

  function Tail(text: string): string
    requires IsAddress(text)
  {
    Join(Labels(text)[1..], '.')
  }

  function Address(local: string, domain: string, tail: string): string {
    local + "***@" + domain + "***." + tail
  }

  function MaskEmail(text: string): string {
    if IsAddress(text) then Address(FirstOf(Local(text)), FirstOf(Labels(text)[0]), Tail(text)) else REDACTED
  }

  function MaskWords(words: seq<string>): (masked: seq<string>)
    ensures |masked| == |words|
  {
    seq(|words|, i requires 0 <= i < |words| => FirstOf(words[i]) + "***")
  }

  function MaskName(text: string): string {
    Join(MaskWords(Split(text, ' ')), ' ')
  }

  function MaskValue(key: string, value: Json): string {
    if !value.Str? then REDACTED
    else if IsEmailKey(key) then MaskEmail(value.text)
    else if IsNameKey(key) then MaskName(value.text)
    else REDACTED
  }

  function Anonymize(data: Json): Json {
    match data
    case Arr(items) => Arr(seq(|items|, i requires 0 <= i < |items| => Anonymize(items[i])))
    case Obj(entries) => Obj(seq(|entries|, i requires 0 <= i < |entries| => AnonymizeEntry(entries[i])))
    case _ => data
  }

  function AnonymizeEntry(entry: Entry): Entry {
    Entry(entry.key, if IsPii(entry.key) then Str(MaskValue(entry.key, entry.value)) else Anonymize(entry.value))
  }

  method AnonymizePII(data: Json) returns (result: Json)
    ensures result == Anonymize(data)
    decreases data
  {
    match data {
      case Arr(items) =>
        var masked: seq<Json> := [];
        for i := 0 to |items|
          invariant |masked| == i && forall k | 0 <= k < i :: masked[k] == Anonymize(items[k])
        {
          var item := AnonymizePII(items[i]);
          masked := masked + [item];
        }
        result := Arr(masked);
      case Obj(entries) =>
        var record: seq<Entry> := [];
        for i := 0 to |entries|
          invariant |record| == i && forall k | 0 <= k < i :: record[k] == AnonymizeEntry(entries[k])
        {
          var key, value := entries[i].key, entries[i].value;
          if IsPii(key) {
            record := record + [Entry(key, Str(MaskValue(key, value)))];
          } else {
            var inner := AnonymizePII(value);
            record := record + [Entry(key, inner)];
          }
        }
        result := Obj(record);
      case _ =>
        result := data;
    }
  }

  // ---------- The shape is kept ----------

  // The same arrays and keys in the same order; a masked value is a string, and every other scalar is unchanged.
  predicate KeepsShape(before: Json, after: Json) {
    match before
    case Arr(items) =>
      after.Arr? && |after.items| == |items| && forall i | 0 <= i < |items| :: KeepsShape(items[i], after.items[i])
    case Obj(entries) =>
      after.Obj? && |after.entries| == |entries|
      && forall i | 0 <= i < |entries| :: KeepsEntry(entries[i], after.entries[i])
    case _ => after == before
  }

  predicate KeepsEntry(before: Entry, after: Entry) {
    && after.key == before.key
    && if IsPii(before.key) then after.value.Str? else KeepsShape(before.value, after.value)
  }

  lemma {:induction false} AnonymizeKeepsShape(data: Json)
    ensures KeepsShape(data, Anonymize(data))
  {
    match data
    case Arr(items) =>
      forall i | 0 <= i < |items|
        ensures KeepsShape(items[i], Anonymize(items[i]))
      {
        AnonymizeKeepsShape(items[i]);
      }
    case Obj(entries) =>
      forall i | 0 <= i < |entries|
        ensures KeepsEntry(entries[i], AnonymizeEntry(entries[i]))
      {
        if !IsPii(entries[i].key) {
          AnonymizeKeepsShape(entries[i].value);
        }
      }
    case _ =>
  }

  // ---------- Reading a mask back ----------

  // Reading a masked address back.
  lemma AddressParts(local: string, domain: string, tail: string)
    requires '@' !in local && '@' !in domain && '@' !in tail && '.' !in domain
    ensures var text := Address(local, domain, tail);
      && IsAddress(text)
      && Local(text) == local + "***"
      && Labels(text)[0] == domain + "***"
      && Tail(text) == tail
  {
    var text := Address(local, domain, tail);
    var afterAt := domain + "***." + tail;
    assert text == (local + "***") + ['@'] + afterAt;
    SplitFirst(local + "***", '@', afterAt);
    SplitWhole(afterAt, '@');
    assert afterAt == (domain + "***") + ['.'] + tail;
    SplitFirst(domain + "***", '.', tail);
    JoinOfSplit(tail, '.');
    assert Labels(text)[1..] == Split(tail, '.');
  }

  lemma PartsHaveNoAt(text: string)
    requires IsAddress(text)
    ensures '@' !in FirstOf(Local(text)) && '@' !in FirstOf(Labels(text)[0]) && '@' !in Tail(text)
    ensures '.' !in FirstOf(Labels(text)[0])
  {
    SplitOnly(Split(text, '@')[1], '.', '@');
    JoinOnly(Labels(text)[1..], '.', '@');
  }

  // ---------- What a log shows, and what it hides ----------

  // Values that leave no trace of their content.
  predicate IsRedacted(key: string, value: Json) {
    !value.Str? || (if IsEmailKey(key) then !IsAddress(value.text) else !IsNameKey(key))
  }

  // All that a masked value shows: of an address, the two first characters and the rest of the domain; of a
  // text under a name key, the first character of each word; of anything else, nothing.
  predicate SameVisible(key: string, left: Json, right: Json) {
    if IsRedacted(key, left) || IsRedacted(key, right) then
      IsRedacted(key, left) && IsRedacted(key, right)
    else if IsEmailKey(key) then
      && FirstOf(Local(left.text)) == FirstOf(Local(right.text))
      && FirstOf(Labels(left.text)[0]) == FirstOf(Labels(right.text)[0])
      && Tail(left.text) == Tail(right.text)
    else
      SameInitials(Split(left.text, ' '), Split(right.text, ' '))
  }

  predicate SameInitials(words: seq<string>, others: seq<string>) {
    |words| == |others| && forall i | 0 <= i < |words| :: FirstOf(words[i]) == FirstOf(others[i])
  }

  // Trees that differ only in what masking hides.
  predicate LookAlike(left: Json, right: Json) {
    match left
    case Arr(items) =>
      right.Arr? && |right.items| == |items| && forall i | 0 <= i < |items| :: LookAlike(items[i], right.items[i])
    case Obj(entries) =>
      right.Obj? && |right.entries| == |entries|
      && forall i | 0 <= i < |entries| :: EntriesLookAlike(entries[i], right.entries[i])
    case _ => left == right
  }

  predicate EntriesLookAlike(left: Entry, right: Entry) {
    && left.key == right.key
    && if IsPii(left.key) then SameVisible(left.key, left.value, right.value) else LookAlike(left.value, right.value)
  }

  lemma SameEmailMask(text: string, other: string)
    requires IsAddress(text) && IsAddress(other)
    ensures MaskEmail(text) == MaskEmail(other)
      <==> && FirstOf(Local(text)) == FirstOf(Local(other))
           && FirstOf(Labels(text)[0]) == FirstOf(Labels(other)[0])
           && Tail(text) == Tail(other)
  {
    PartsHaveNoAt(text);
    PartsHaveNoAt(other);
    AddressParts(FirstOf(Local(text)), FirstOf(Labels(text)[0]), Tail(text));
    AddressParts(FirstOf(Local(other)), FirstOf(Labels(other)[0]), Tail(other));
    DropStars(FirstOf(Local(text)), FirstOf(Local(other)));
    DropStars(FirstOf(Labels(text)[0]), FirstOf(Labels(other)[0]));
  }

  lemma DropStars(s: string, t: string)
    ensures s + "***" == t + "***" <==> s == t
  {
    assert (s + "***")[..|s + "***"| - 3] == s;
    assert (t + "***")[..|t + "***"| - 3] == t;
  }

  lemma SameNameMask(text: string, other: string)
    ensures MaskName(text) == MaskName(other) <==> SameInitials(Split(text, ' '), Split(other, ' '))
  {
    var words, others := Split(text, ' '), Split(other, ' ');
    var masked, maskedOthers := MaskWords(words), MaskWords(others);
    SplitOfJoin(masked, ' ');
    SplitOfJoin(maskedOthers, ' ');
    assert MaskName(text) == MaskName(other) <==> masked == maskedOthers;
    forall i | 0 <= i < |words| && i < |others|
      ensures masked[i] == maskedOthers[i] <==> FirstOf(words[i]) == FirstOf(others[i])
    {
      DropStars(FirstOf(words[i]), FirstOf(others[i]));
    }
  }

  // No mask of an address or a name is the redaction text.
  lemma EmailMaskIsNotRedacted(text: string)
    ensures MaskEmail(text) == REDACTED <==> !IsAddress(text)
  {
    if IsAddress(text) {
      PartsHaveNoAt(text);
      AddressParts(FirstOf(Local(text)), FirstOf(Labels(text)[0]), Tail(text));
      SplitWhole(REDACTED, '@');
    }
  }

  lemma NameMaskIsNotRedacted(text: string)
    ensures MaskName(text) != REDACTED
  {
    var masked := MaskWords(Split(text, ' '));
    SplitOfJoin(masked, ' ');
    SplitWhole(REDACTED, ' ');
    assert masked[0][|masked[0]| - 1] == '*';
  }

  lemma MasksAreNotRedacted(key: string, value: Json)
    ensures MaskValue(key, value) == REDACTED <==> IsRedacted(key, value)
  {
    if value.Str? {
      EmailMaskIsNotRedacted(value.text);
      NameMaskIsNotRedacted(value.text);
    }
  }

  lemma SameMaskExactly(key: string, left: Json, right: Json)
    ensures MaskValue(key, left) == MaskValue(key, right) <==> SameVisible(key, left, right)
  {
    MasksAreNotRedacted(key, left);
    MasksAreNotRedacted(key, right);
    if !IsRedacted(key, left) && !IsRedacted(key, right) {
      if IsEmailKey(key) {
        SameEmailMask(left.text, right.text);
      } else {
        SameNameMask(left.text, right.text);
      }
    }
  }

  // Two trees are logged alike exactly when they differ only in hidden parts: the log depends on nothing
  // that is hidden, and shows all the rest.
  lemma {:induction false} LoggedAlikeExactly(left: Json, right: Json)
    ensures Anonymize(left) == Anonymize(right) <==> LookAlike(left, right)
  {
    match left
    case Arr(items) =>
      if right.Arr? && |right.items| == |items| {
        var logged, other := Anonymize(left).items, Anonymize(right).items;
        forall i | 0 <= i < |items|
          ensures logged[i] == other[i] <==> LookAlike(items[i], right.items[i])
        {
          LoggedAlikeExactly(items[i], right.items[i]);
        }
        assert logged == other <==> forall i | 0 <= i < |items| :: logged[i] == other[i];
      } else if right.Arr? {
        assert |Anonymize(left).items| != |Anonymize(right).items|;
      }
    case Obj(entries) =>
      if right.Obj? && |right.entries| == |entries| {
        var logged, other := Anonymize(left).entries, Anonymize(right).entries;
        forall i | 0 <= i < |entries|
          ensures logged[i] == other[i] <==> EntriesLookAlike(entries[i], right.entries[i])
        {
          assert logged[i] == AnonymizeEntry(entries[i]) && other[i] == AnonymizeEntry(right.entries[i]);
          if IsPii(entries[i].key) {
            SameMaskExactly(entries[i].key, entries[i].value, right.entries[i].value);
          } else {
            LoggedAlikeExactly(entries[i].value, right.entries[i].value);
          }
        }
        assert logged == other <==> forall i | 0 <= i < |entries| :: logged[i] == other[i];
      } else if right.Obj? {
        assert |Anonymize(left).entries| != |Anonymize(right).entries|;
      }
    case _ =>
  }

  // ---------- Masking twice ----------

  // An address keeps its mask when its local part and its first label are not empty.
  predicate StableEmail(text: string) {
    IsAddress(text) ==> Local(text) != "" && Labels(text)[0] != ""
  }

  lemma MaskEmailTwice(text: string)
    ensures MaskEmail(MaskEmail(text)) == MaskEmail(text) <==> StableEmail(text)
  {
    if IsAddress(text) {
      var local, domain, tail := FirstOf(Local(text)), FirstOf(Labels(text)[0]), Tail(text);
      PartsHaveNoAt(text);
      AddressParts(local, domain, tail);
      assert MaskEmail(MaskEmail(text)) == Address([local[0]], [domain[0]], tail);
      if StableEmail(text) {
        assert [local[0]] == local && [domain[0]] == domain;
      } else {
        assert |Address([local[0]], [domain[0]], tail)| < |Address(local, domain, tail)|;
      }
    } else {
      SplitWhole(REDACTED, '@');
    }
  }

  predicate StableName(text: string) {
    forall i | 0 <= i < |Split(text, ' ')| :: Split(text, ' ')[i] != ""
  }

  lemma MaskNameTwice(text: string)
    ensures MaskName(MaskName(text)) == MaskName(text) <==> StableName(text)
  {
    var words := Split(text, ' ');
    var once := MaskWords(words);
    var twice := MaskWords(once);
    SplitOfJoin(once, ' ');
    SplitOfJoin(twice, ' ');
    assert MaskName(MaskName(text)) == Join(twice, ' ');
    if StableName(text) {
      assert twice == once;
    } else {
      var i :| 0 <= i < |words| && words[i] == "";
      assert |twice[i]| < |once[i]|;
    }
  }

  lemma RedactedIsNoName()
    ensures MaskName(REDACTED) != REDACTED
  {
    SplitWhole(REDACTED, ' ');
    assert FirstOf(REDACTED) == "[";
    assert |MaskName(REDACTED)| == 4;
  }

  // A masked value is masked to itself, for each kind of key.
  predicate StableValue(key: string, value: Json) {
    if IsEmailKey(key) then value.Str? ==> StableEmail(value.text)
    else if IsNameKey(key) then value.Str? && StableName(value.text)
    else true
  }

  lemma MaskValueTwice(key: string, value: Json)
    ensures MaskValue(key, Str(MaskValue(key, value))) == MaskValue(key, value) <==> StableValue(key, value)
  {
    if value.Str? {
      MaskEmailTwice(value.text);
      MaskNameTwice(value.text);
    } else {
      SplitWhole(REDACTED, '@');
      RedactedIsNoName();
    }
  }

  predicate Stable(data: Json) {
    match data
    case Arr(items) => forall i | 0 <= i < |items| :: Stable(items[i])
    case Obj(entries) => forall i | 0 <= i < |entries| :: StableEntry(entries[i])
    case _ => true
  }

  predicate StableEntry(entry: Entry) {
    if IsPii(entry.key) then StableValue(entry.key, entry.value) else Stable(entry.value)
  }

  // Masking a tree twice changes nothing more, exactly when every address in it has a local part and a first
  // domain, and every value under a name key is a text without empty words.
  lemma {:induction false} IdempotentExactly(data: Json)
    ensures Anonymize(Anonymize(data)) == Anonymize(data) <==> Stable(data)
  {
    match data
    case Arr(items) =>
      var once := Anonymize(data).items;
      var twice := Anonymize(Anonymize(data)).items;
      forall i | 0 <= i < |items|
        ensures twice[i] == once[i] <==> Stable(items[i])
      {
        IdempotentExactly(items[i]);
      }
      assert twice == once <==> forall i | 0 <= i < |items| :: twice[i] == once[i];
    case Obj(entries) =>
      var once := Anonymize(data).entries;
      var twice := Anonymize(Anonymize(data)).entries;
      forall i | 0 <= i < |entries|
        ensures twice[i] == once[i] <==> StableEntry(entries[i])
      {
        assert once[i] == AnonymizeEntry(entries[i]) && twice[i] == AnonymizeEntry(once[i]);
        if IsPii(entries[i].key) {
          MaskValueTwice(entries[i].key, entries[i].value);
        } else {
          IdempotentExactly(entries[i].value);
        }
      }
      assert twice == once <==> forall i | 0 <= i < |entries| :: twice[i] == once[i];
    case _ =>
  }
}
