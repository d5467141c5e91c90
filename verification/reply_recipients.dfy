/** Whom a reply goes to. Addresses are compared trimmed and in lower case. */
module ReplyRecipients {
  import opened Wrappers
  import opened GoText

  /** One entry of an address field; `address` is the object's address as text. */
  datatype Entry = Object(address: string) | Header(text: string) | Other

  datatype Message = Message(replyTo: seq<Entry>, from: seq<Entry>, to: seq<Entry>, cc: seq<Entry>)

  datatype Recipients = Recipients(to: seq<string>, cc: seq<string>)

  /** The mail library's address-list parser: the bare addresses, or nothing for a malformed header. */
  type HeaderParser = string -> Option<seq<string>>

  function Key(address: string): string {
    ToLower(TrimSpace(address))
  }

  predicate Blank(address: string) {
    |TrimSpace(address)| == 0
  }

  // --- reading addresses ---------------------------------------------------------------------------

  function CleanedOne(address: string): seq<string> {
    if Blank(address) then [] else [TrimSpace(address)]
  }

  /** The non-blank members of a list, trimmed. */
  function Cleaned(list: seq<string>): seq<string> {
    if list == [] then [] else Cleaned(list[..|list| - 1]) + CleanedOne(list[|list| - 1])
  }

  function ParsedHeader(text: string, parse: HeaderParser): seq<string> {
    if parse(text).None? then [] else Cleaned(parse(text).value)
  }

  function ObjectAddresses(entries: seq<Entry>): seq<string> {
    if entries == [] then []
    else
      var last := entries[|entries| - 1];
      ObjectAddresses(entries[..|entries| - 1]) + if last.Object? then CleanedOne(last.address) else []
  }

  function NonBlankTexts(entries: seq<Entry>): seq<string> {
    if entries == [] then []
    else
      var last := entries[|entries| - 1];
      NonBlankTexts(entries[..|entries| - 1]) + if last.Header? && !Blank(last.text) then [last.text] else []
  }

  function ParsedHeaders(texts: seq<string>, parse: HeaderParser): seq<string> {
    if texts == [] then []
    else ParsedHeaders(texts[..|texts| - 1], parse) + ParsedHeader(texts[|texts| - 1], parse)
  }

  /** The addresses of the objects come first, then those of the headers. */
  function Addresses(entries: seq<Entry>, parse: HeaderParser): seq<string> {
    ObjectAddresses(entries) + ParsedHeaders(NonBlankTexts(entries), parse)
  }

  method MailAddressStrings(parsed: seq<string>) returns (addresses: seq<string>)
    ensures addresses == Cleaned(parsed)
  {
    addresses := [];
    for i := 0 to |parsed|
      invariant addresses == Cleaned(parsed[..i])
    {
      var cleaned := TrimSpace(parsed[i]);
      assert parsed[..i + 1][..i] == parsed[..i];
      if cleaned != "" {
        addresses := addresses + [cleaned];
      }
    }
    assert parsed[..|parsed|] == parsed;
  }

  method ParseAddressHeader(header: string, parse: HeaderParser) returns (addresses: seq<string>)
    ensures addresses == ParsedHeader(header, parse)
  {
    var parsed := parse(header);
    if parsed.None? {
      return [];
    }
    addresses := MailAddressStrings(parsed.value);
  }

  method ParseHeaders(headers: seq<string>, parse: HeaderParser) returns (addresses: seq<string>)
    ensures addresses == ParsedHeaders(headers, parse)
  {
    addresses := [];
    for i := 0 to |headers|
      invariant addresses == ParsedHeaders(headers[..i], parse)
    {
      assert headers[..i + 1][..i] == headers[..i];
      var parsed := ParseAddressHeader(headers[i], parse);
      addresses := addresses + parsed;
    }
    assert headers[..|headers|] == headers;
  }

  method ExtractAddresses(entries: seq<Entry>, parse: HeaderParser) returns (addresses: seq<string>)
    ensures addresses == Addresses(entries, parse)
  {
    addresses := [];
    var headers: seq<string> := [];
    for i := 0 to |entries|
      invariant addresses == ObjectAddresses(entries[..i])
      invariant headers == NonBlankTexts(entries[..i])
    {
      assert entries[..i + 1][..i] == entries[..i];
      match entries[i] {
        case Object(raw) =>
          var address := TrimSpace(raw);
          if address != "" {
            addresses := addresses + [address];
          }
        case Header(text) =>
          if TrimSpace(text) != "" {
            headers := headers + [text];
          }
        case Other =>
      }
    }
    assert entries[..|entries|] == entries;
    var parsed := ParseHeaders(headers, parse);
    addresses := addresses + parsed;
  }

  lemma {:induction false} CleanedAreClean(list: seq<string>)
    ensures forall a :: a in Cleaned(list) ==> a != "" && TrimSpace(a) == a
  {
    if list != [] {
      CleanedAreClean(list[..|list| - 1]);
      TrimSpaceIsIdempotent(list[|list| - 1]);
    }
  }

  lemma {:induction false} ObjectAddressesAreClean(entries: seq<Entry>)
    ensures forall a :: a in ObjectAddresses(entries) ==> a != "" && TrimSpace(a) == a
  {
    if entries != [] {
      ObjectAddressesAreClean(entries[..|entries| - 1]);
      var last := entries[|entries| - 1];
      if last.Object? {
        TrimSpaceIsIdempotent(last.address);
      }
    }
  }

  lemma {:induction false} ParsedHeadersAreClean(texts: seq<string>, parse: HeaderParser)
    ensures forall a :: a in ParsedHeaders(texts, parse) ==> a != "" && TrimSpace(a) == a
  {
    if texts != [] {
      var parsed := parse(texts[|texts| - 1]);
      ParsedHeadersAreClean(texts[..|texts| - 1], parse);
      if parsed.Some? {
        CleanedAreClean(parsed.value);
      }
    }
  }

  /** Every extracted address is trimmed and non-empty, whatever the fields held. */
  lemma AddressesAreClean(entries: seq<Entry>, parse: HeaderParser)
    ensures forall a :: a in Addresses(entries, parse) ==> a != "" && TrimSpace(a) == a
  {
    ObjectAddressesAreClean(entries);
    ParsedHeadersAreClean(NonBlankTexts(entries), parse);
  }

  // --- keeping first occurrences ---------------------------------------------------------------------

  function Keys(list: seq<string>): set<string> {
    set a | a in list && !Blank(a) :: Key(a)
  }

  /** Position `i` holds a usable address whose key is neither in `seen` nor among the keys before it. */
  predicate NewAt(list: seq<string>, i: int, seen: set<string>) {
    0 <= i < |list| && !Blank(list[i]) && Key(list[i]) !in seen + Keys(list[..i])
  }

  function KeptAt(list: seq<string>, i: nat, seen: set<string>): seq<string> {
    if NewAt(list, i, seen) then [TrimSpace(list[i])] else []
  }

  /** The new members of the first `n` entries, in order. */
  function FirstSeen(list: seq<string>, n: nat, seen: set<string>): seq<string>
    requires n <= |list|
  {
    if n == 0 then [] else FirstSeen(list, n - 1, seen) + KeptAt(list, n - 1, seen)
  }

  lemma KeysOfOne(address: string)
    ensures Keys([address]) == if Blank(address) then {} else {Key(address)}
  {
    assert [address][0] == address;
  }

  lemma KeysOfJoined(one: seq<string>, two: seq<string>)
    ensures Keys(one + two) == Keys(one) + Keys(two)
  {
    assert forall a :: a in one + two <==> a in one || a in two;
  }

  method AppendUniqueAddress(target: seq<string>, seen: set<string>, address: string) returns (kept: seq<string>, known: set<string>)
    ensures known == seen + Keys([address])
    ensures kept == target + if Blank(address) || Key(address) in seen then [] else [TrimSpace(address)]
  {
    var cleaned := TrimSpace(address);
    KeysOfOne(address);
    if cleaned == "" {
      return target, seen;
    }
    var key := ToLower(cleaned);
    if key in seen {
      return target, seen;
    }
    return target + [cleaned], seen + {key};
  }

  /** Appends the new addresses of a list; the known keys pass from one list to the next. */
  method AppendAll(target: seq<string>, seen: set<string>, list: seq<string>) returns (kept: seq<string>, known: set<string>)
    ensures kept == target + FirstSeen(list, |list|, seen)
    ensures known == seen + Keys(list)
  {
    kept, known := target, seen;
    for i := 0 to |list|
      invariant kept == target + FirstSeen(list, i, seen)
      invariant known == seen + Keys(list[..i])
    {
      OneMoreOf(list, i);
      KeysOfJoined(list[..i], [list[i]]);
      Associate(target, FirstSeen(list, i, seen), KeptAt(list, i, seen));
      kept, known := AppendUniqueAddress(kept, known, list[i]);
    }
    assert list[..|list|] == list;
  }

  lemma Associate<T>(one: seq<T>, two: seq<T>, three: seq<T>)
    ensures one + (two + three) == one + two + three
  {
  }

  lemma OneMoreOf<T>(list: seq<T>, i: nat)
    requires i < |list|
    ensures list[..i + 1] == list[..i] + [list[i]] && list[..|list|] == list
  {
  }

  lemma SameFront<T>(one: seq<T>, two: seq<T>, n: nat)
    requires n < |one|
    ensures (one + two)[..n] == one[..n] && (one + two)[n] == one[n]
  {
  }

  lemma FrontOfJoined<T>(one: seq<T>, two: seq<T>, i: nat)
    requires i < |two|
    ensures (one + two)[|one| + i] == two[i] && (one + two)[..|one| + i] == one + two[..i]
  {
  }

  predicate Distinct(list: seq<string>) {
    forall i, j :: 0 <= i < j < |list| ==> Key(list[i]) != Key(list[j])
  }

  /** Increasing positions of `list` that `kept` was taken from. */
  predicate TakenInOrder(kept: seq<string>, list: seq<string>, at: seq<int>) {
    && |at| == |kept|
    && (forall i :: 0 <= i < |at| ==> 0 <= at[i] < |list| && kept[i] == TrimSpace(list[at[i]]))
    && forall i, j :: 0 <= i < j < |at| ==> at[i] < at[j]
  }

  lemma TakesOneMore(kept: seq<string>, list: seq<string>, at: seq<int>, last: nat)
    requires TakenInOrder(kept, list, at) && last < |list| && forall i :: 0 <= i < |at| ==> at[i] < last
    ensures TakenInOrder(kept + [TrimSpace(list[last])], list, at + [last])
  {
  }

  function FirstPositions(list: seq<string>, n: nat, seen: set<string>): seq<int>
    requires n <= |list|
  {
    if n == 0 then [] else FirstPositions(list, n - 1, seen) + if NewAt(list, n - 1, seen) then [n - 1] else []
  }

  lemma {:induction false} FirstPositionsAreNew(list: seq<string>, n: nat, seen: set<string>)
    requires n <= |list|
    ensures forall i :: 0 <= i < |FirstPositions(list, n, seen)| ==>
              FirstPositions(list, n, seen)[i] < n && NewAt(list, FirstPositions(list, n, seen)[i], seen)
  {
    if n > 0 {
      FirstPositionsAreNew(list, n - 1, seen);
    }
  }

  lemma {:induction false} FirstSeenIsTakenInOrder(list: seq<string>, n: nat, seen: set<string>)
    requires n <= |list|
    ensures TakenInOrder(FirstSeen(list, n, seen), list, FirstPositions(list, n, seen))
  {
    if n > 0 {
      FirstSeenIsTakenInOrder(list, n - 1, seen);
      FirstPositionsAreNew(list, n - 1, seen);
      if NewAt(list, n - 1, seen) {
        TakesOneMore(FirstSeen(list, n - 1, seen), list, FirstPositions(list, n - 1, seen), n - 1);
      } else {
        assert FirstSeen(list, n, seen) == FirstSeen(list, n - 1, seen);
      }
    }
  }

  lemma KeyOfTrimmed(address: string)
    ensures Key(TrimSpace(address)) == Key(address)
  {
    TrimSpaceIsIdempotent(address);
  }

  /** No address is kept twice and none was seen before. */
  lemma FirstSeenIsDistinct(list: seq<string>, seen: set<string>)
    ensures Distinct(FirstSeen(list, |list|, seen))
    ensures forall a :: a in FirstSeen(list, |list|, seen) ==> Key(a) !in seen && Key(a) in Keys(list)
  {
    FirstSeenIsTakenInOrder(list, |list|, seen);
    FirstPositionsAreNew(list, |list|, seen);
    var kept, at := FirstSeen(list, |list|, seen), FirstPositions(list, |list|, seen);
    forall i | 0 <= i < |kept| ensures Key(kept[i]) == Key(list[at[i]]) && Key(kept[i]) !in seen && Key(kept[i]) in Keys(list) {
      KeyOfTrimmed(list[at[i]]);
      assert NewAt(list, at[i], seen);
      assert list[at[i]] in list;
    }
    forall i, j | 0 <= i < j < |kept| ensures Key(kept[i]) != Key(kept[j]) {
      assert NewAt(list, at[j], seen) && NewAt(list, at[i], seen) && list[at[i]] in list[..at[j]];
    }
  }

  /** Every usable address not seen before is kept. */
  lemma {:induction false} FirstSeenIsComplete(list: seq<string>, n: nat, seen: set<string>)
    requires n <= |list|
    ensures Keys(list[..n]) <= seen + Keys(FirstSeen(list, n, seen))
  {
    if n > 0 {
      FirstSeenIsComplete(list, n - 1, seen);
      OneIsCovered(list, n - 1, seen);
      OneMoreOf(list, n - 1);
      CoversJoined(list[..n - 1], [list[n - 1]], FirstSeen(list, n - 1, seen), KeptAt(list, n - 1, seen), seen);
    }
  }

  lemma CoversJoined(front: seq<string>, one: seq<string>, kept: seq<string>, last: seq<string>, seen: set<string>)
    requires Keys(front) <= seen + Keys(kept) && Keys(one) <= seen + Keys(front) + Keys(last)
    ensures Keys(front + one) <= seen + Keys(kept + last)
  {
    KeysOfJoined(front, one);
    KeysOfJoined(kept, last);
    CoversMore(Keys(front), Keys(kept), Keys(one), Keys(last), seen);
  }

  lemma CoversMore<T>(front: set<T>, kept: set<T>, one: set<T>, last: set<T>, seen: set<T>)
    requires front <= seen + kept && one <= seen + front + last
    ensures front + one <= seen + (kept + last)
  {
  }

  lemma OneIsCovered(list: seq<string>, i: nat, seen: set<string>)
    requires i < |list|
    ensures Keys([list[i]]) <= seen + Keys(list[..i]) + Keys(KeptAt(list, i, seen))
  {
    KeysOfOne(list[i]);
    if NewAt(list, i, seen) {
      KeyOfTrimmed(list[i]);
      KeysOfOne(TrimSpace(list[i]));
      TrimSpaceIsIdempotent(list[i]);
    }
  }

  /** Keeping from one list and then from another is keeping from both joined. */
  lemma {:induction false} FirstSeenOfJoined(one: seq<string>, two: seq<string>, n: nat, seen: set<string>)
    requires n <= |two|
    ensures FirstSeen(one + two, |one| + n, seen) == FirstSeen(one, |one|, seen) + FirstSeen(two, n, seen + Keys(one))
  {
    if n == 0 {
      FirstSeenOfPrefix(one, two, |one|, seen);
    } else {
      FirstSeenOfJoined(one, two, n - 1, seen);
      KeptInJoined(one, two, n - 1, seen);
      Associate(FirstSeen(one, |one|, seen), FirstSeen(two, n - 1, seen + Keys(one)), KeptAt(two, n - 1, seen + Keys(one)));
    }
  }

  lemma KeptInJoined(one: seq<string>, two: seq<string>, i: nat, seen: set<string>)
    requires i < |two|
    ensures KeptAt(one + two, |one| + i, seen) == KeptAt(two, i, seen + Keys(one))
  {
    FrontOfJoined(one, two, i);
    KeysOfJoined(one, two[..i]);
  }

  lemma {:induction false} FirstSeenOfPrefix(one: seq<string>, two: seq<string>, n: nat, seen: set<string>)
    requires n <= |one|
    ensures FirstSeen(one + two, n, seen) == FirstSeen(one, n, seen)
  {
    if n > 0 {
      FirstSeenOfPrefix(one, two, n - 1, seen);
      SameFront(one, two, n - 1);
    }
  }

  // --- the reply ------------------------------------------------------------------------------------

  /** Where a reply is due: the reply-to addresses, or without any the senders. */
  function Targets(message: Message, parse: HeaderParser): seq<string> {
    var replyTo := Addresses(message.replyTo, parse);
    if replyTo == [] then Addresses(message.from, parse) else replyTo
  }

  /** Who else a reply-all concerns, in the order they are met. */
  function Others(message: Message, replyAll: bool, parse: HeaderParser): seq<string> {
    if replyAll then Addresses(message.to, parse) + Addresses(message.cc, parse) else []
  }

  /** What a reply must be: no duplicates, nothing of the mailbox's own, everyone reached, first-seen order. */
  ghost predicate IsReply(r: Recipients, targets: seq<string>, others: seq<string>, own: set<string>) {
    && Distinct(r.to + r.cc)
    && (forall a :: a in r.to + r.cc ==> Key(a) !in own)
    && (forall a :: a in targets && !Blank(a) && Key(a) !in own ==> Key(a) in Keys(r.to))
    && (forall a :: a in others && !Blank(a) && Key(a) !in own ==> Key(a) in Keys(r.to + r.cc))
    && (exists at :: TakenInOrder(r.to, targets, at) && forall i :: 0 <= i < |at| ==> NewAt(targets, at[i], own))
    && (exists at :: TakenInOrder(r.cc, others, at) && forall i :: 0 <= i < |at| ==> NewAt(others, at[i], own + Keys(targets)))
  }

  lemma JoinedIsDistinct(to: seq<string>, cc: seq<string>, keys: set<string>)
    requires Distinct(to) && Distinct(cc)
    requires (forall a :: a in to ==> Key(a) in keys) && forall a :: a in cc ==> Key(a) !in keys
    ensures Distinct(to + cc)
  {
    forall i, j | 0 <= i < j < |to + cc| ensures Key((to + cc)[i]) != Key((to + cc)[j]) {
      if i < |to| && j >= |to| {
        assert to[i] in to && cc[j - |to|] in cc;
      }
    }
  }

  lemma FirstSeenIsReply(targets: seq<string>, others: seq<string>, own: set<string>)
    ensures IsReply(Recipients(FirstSeen(targets, |targets|, own), FirstSeen(others, |others|, own + Keys(targets))), targets, others, own)
  {
    var to, cc := FirstSeen(targets, |targets|, own), FirstSeen(others, |others|, own + Keys(targets));
    FirstSeenIsDistinct(targets, own);
    FirstSeenIsDistinct(others, own + Keys(targets));
    FirstSeenIsTakenInOrder(targets, |targets|, own);
    FirstPositionsAreNew(targets, |targets|, own);
    FirstSeenIsTakenInOrder(others, |others|, own + Keys(targets));
    FirstPositionsAreNew(others, |others|, own + Keys(targets));
    JoinedIsDistinct(to, cc, Keys(targets));
    KeptKeys(targets, own);
    OthersAreReached(targets, others, own);
  }

  /** Whoever is not kept for Cc is already among the kept targets. */
  lemma OthersAreReached(targets: seq<string>, others: seq<string>, own: set<string>)
    ensures var to, cc := FirstSeen(targets, |targets|, own), FirstSeen(others, |others|, own + Keys(targets));
            forall a :: a in others && !Blank(a) && Key(a) !in own ==> Key(a) in Keys(to + cc)
  {
    var to, cc := FirstSeen(targets, |targets|, own), FirstSeen(others, |others|, own + Keys(targets));
    KeptKeys(targets, own);
    KeptKeys(others, own + Keys(targets));
    KeysOfJoined(to, cc);
    forall a | a in others && !Blank(a) && Key(a) !in own ensures Key(a) in Keys(to + cc) {
      if Key(a) in Keys(targets) {
        var b :| b in targets && !Blank(b) && Key(b) == Key(a);
        assert Key(b) in Keys(to);
      }
    }
  }

  /** Every usable address whose key is not in `seen` has its key among the kept ones. */
  lemma KeptKeys(list: seq<string>, seen: set<string>)
    ensures forall a :: a in list && !Blank(a) && Key(a) !in seen ==> Key(a) in Keys(FirstSeen(list, |list|, seen))
  {
    FirstSeenIsTakenInOrder(list, |list|, seen);
    FirstPositionsAreNew(list, |list|, seen);
    var kept, at := FirstSeen(list, |list|, seen), FirstPositions(list, |list|, seen);
    forall b | b in kept ensures !Blank(b) {
      var i :| 0 <= i < |kept| && kept[i] == b;
      TrimSpaceIsIdempotent(list[at[i]]);
      assert NewAt(list, at[i], seen);
    }
    FirstSeenIsComplete(list, |list|, seen);
    assert list[..|list|] == list;
    forall a | a in list && !Blank(a) && Key(a) !in seen ensures Key(a) in Keys(kept) {
      assert Key(a) in Keys(list);
    }
  }

  method OwnKeys(mailbox: seq<Entry>, parse: HeaderParser) returns (own: set<string>)
    ensures own == Keys(Addresses(mailbox, parse))
  {
    var addresses := ExtractAddresses(mailbox, parse);
    AddressesAreClean(mailbox, parse);
    own := {};
    for i := 0 to |addresses|
      invariant own == Keys(addresses[..i])
    {
      assert addresses[i] in addresses && !Blank(addresses[i]) && ToLower(addresses[i]) == Key(addresses[i]);
      OneMoreOf(addresses, i);
      KeysOfJoined(addresses[..i], [addresses[i]]);
      KeysOfOne(addresses[i]);
      own := own + {ToLower(addresses[i])};
    }
    assert addresses[..|addresses|] == addresses;
  }

  /** The reply-all part: the original To and then Cc, sharing one `seen`. */
  method CopyRecipients(message: Message, seen: set<string>, parse: HeaderParser) returns (cc: seq<string>)
    ensures var others := Addresses(message.to, parse) + Addresses(message.cc, parse);
            cc == FirstSeen(others, |others|, seen)
  {
    var originalTo := ExtractAddresses(message.to, parse);
    var known, all: set<string>;
    cc, known := AppendAll([], seen, originalTo);
    var originalCc := ExtractAddresses(message.cc, parse);
    cc, all := AppendAll(cc, known, originalCc);
    KeepingJoined(originalTo, originalCc, seen);
  }

  lemma KeepingJoined(one: seq<string>, two: seq<string>, seen: set<string>)
    ensures [] + FirstSeen(one, |one|, seen) + FirstSeen(two, |two|, seen + Keys(one)) == FirstSeen(one + two, |one + two|, seen)
  {
    FirstSeenOfJoined(one, two, |two|, seen);
    var first := FirstSeen(one, |one|, seen);
    assert [] + first == first;
  }

  /**
   * The reply is complete and unique, and fails exactly when nobody but the mailbox itself
   * could be written to.
   */
  method ResolveReplyRecipients(message: Message, replyAll: bool, mailbox: seq<Entry>, parse: HeaderParser)
    returns (r: Result<Recipients, string>)
    ensures var own := Keys(Addresses(mailbox, parse));
            var targets, others := Targets(message, parse), Others(message, replyAll, parse);
            && (r.Err? <==> Keys(targets + others) <= own)
            && (r.Ok? ==> IsReply(r.value, targets, others, own))
            && (r.Ok? && !replyAll ==> r.value.cc == [])
  {
    var own := OwnKeys(mailbox, parse);
    var seen := own;
    var to: seq<string> := [];
    var cc: seq<string> := [];
    var targets := ExtractAddresses(message.replyTo, parse);
    if |targets| == 0 {
      targets := ExtractAddresses(message.from, parse);
    }
    to, seen := AppendAll(to, seen, targets);
    if replyAll {
      cc := CopyRecipients(message, seen, parse);
    }
    ghost var others := Others(message, replyAll, parse);
    ReplyIsDecided(to, cc, targets, others, own);
    if |to| == 0 && |cc| == 0 {
      return Err("could not determine reply recipients from the original message");
    }
    return Ok(Recipients(to, cc));
  }

  /** Nothing is kept of a list exactly when all its keys were seen before. */
  lemma NothingKept(list: seq<string>, seen: set<string>)
    ensures FirstSeen(list, |list|, seen) == [] <==> Keys(list) <= seen
  {
    var kept := FirstSeen(list, |list|, seen);
    FirstSeenIsDistinct(list, seen);
    if kept != [] {
      assert kept[0] in kept;
    } else {
      KeptKeys(list, seen);
      assert Keys(kept) == {};
    }
  }

  lemma ReplyIsDecided(to: seq<string>, cc: seq<string>, targets: seq<string>, others: seq<string>, own: set<string>)
    requires to == FirstSeen(targets, |targets|, own) && cc == FirstSeen(others, |others|, own + Keys(targets))
    ensures IsReply(Recipients(to, cc), targets, others, own)
    ensures to == [] && cc == [] <==> Keys(targets + others) <= own
  {
    FirstSeenIsReply(targets, others, own);
    NothingKept(targets, own);
    NothingKept(others, own + Keys(targets));
    KeysOfJoined(targets, others);
  }
}
