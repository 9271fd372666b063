/**
 * The status list of the settings page: the stored status string is split
 * on `;`, and each part becomes one list item, chosen by the part's key
 * (the part with everything from its first `:` on removed, as the regular
 * expression `/:.*$/` does) through a fixed translation table. Parts of the
 * form `wfocu_class_patched:<names>` show the names after the first `:`.
 *
 * Together with the status encoding of the patch this is a small
 * serialiser and parser; the lemmas at the end prove the round trip.
 */
module StatusPage {
  import opened Strings
  import opened PpcpPatch

  /** The status shown before the patch has ever stored one. */
  const NotRunKey: string := "not_run"

  /** The key of the patched entry, before its `:` and the added names. */
  const PatchedKey: string := "wfocu_class_patched"

  /** The number of rows of the page's translation table. */
  const Rows: nat := 7

  /** The key of each row of the translation table, in the page's order. */
  function Key(row: nat): string
  {
    if row == 0 then NotRunKey
    else if row == 1 then PaypalInactiveEntry
    else if row == 2 then WfocuNotFoundEntry
    else if row == 3 then PatchedKey
    else if row == 4 then AlreadyPatchedEntry
    else if row == 5 then UpstrokeAddedEntry
    else UpstrokeNotNeededEntry
  }

  /** The sentence of each row of the translation table. */
  function Sentence(row: nat): string
  {
    if row == 0 then "Plugin has not run yet"
    else if row == 1 then "PayPal for WooCommerce plugin is not active"
    else if row == 2 then "WFOCU PayPal class not found (might not be necessary for your setup)"
    else if row == 3 then "Successfully patched WFOCU PayPal class"
    else if row == 4 then "WFOCU PayPal class already has all required properties"
    else if row == 5 then "Added missing UpStroke Subscriptions PayPal class"
    else "UpStroke Subscriptions class exists or is not needed"
  }

  /** The first row from `row` on whose key is `key`, if any. */
  function RowFrom(key: string, row: nat): (r: Option<nat>)
    ensures r.Some? ==> row <= r.value < Rows
    decreases Rows - row
  {
    if row >= Rows then None
    else if Key(row) == key then Some(row)
    else RowFrom(key, row + 1)
  }

  /** `isset($translation[$key])` */
  predicate Known(key: string)
  {
    RowFrom(key, 0).Some?
  }

  /** `isset($translation[$key]) ? $translation[$key] : null` */
  function Translate(key: string): Option<string>
  {
    match RowFrom(key, 0)
    case Some(row) => Some(Sentence(row))
    case None => None
  }

  /** A key has a row from `row` on exactly when some such row carries it, and the row found carries it. */
  lemma {:induction false} RowFromSpec(key: string, row: nat)
    ensures RowFrom(key, row).None? <==> forall r :: row <= r < Rows ==> Key(r) != key
    ensures RowFrom(key, row).Some? ==> Key(RowFrom(key, row).value) == key
    decreases Rows - row
  {
    if row < Rows && Key(row) != key {
      RowFromSpec(key, row + 1);
    }
  }

  /** The table translates exactly the keys of its rows, each to the sentence of a row carrying it. */
  lemma TranslateSpec(key: string)
    ensures Translate(key).Some? <==> exists r :: 0 <= r < Rows && Key(r) == key
    ensures Translate(key).Some? ==> exists r :: 0 <= r < Rows && Key(r) == key && Translate(key).value == Sentence(r)
  {
    RowFromSpec(key, 0);
  }

  /** One list item of the status list, before it is rendered as HTML. */
  datatype Message =
    | Translated(key: string)     // the table's sentence for a known key
    | PatchedWith(details: string) // the patched sentence with the added names
    | Raw(part: string)           // an unknown part, shown as stored

  /** The text of a list item (HTML escaping of the details aside). */
  function MessageText(m: Message): string
    requires m.Translated? ==> Known(m.key)
  {
    match m
    case Translated(key) => Translate(key).value
    case PatchedWith(details) =>
      "Successfully patched WFOCU PayPal class with properties: <code>" + details + "</code>"
    case Raw(part) => part
  }

  /** The index just after the last line break of `s[..n]`, or 0 if it has none. */
  function LineStartBefore(s: string, n: nat): (k: nat)
    requires n <= |s|
    ensures k <= n
    decreases n
  {
    if n == 0 then 0
    else if s[n - 1] == '\n' then n
    else LineStartBefore(s, n - 1)
  }

  /** Before `n` there is no line break from the line start on, and one just before it. */
  lemma {:induction false} LineStartBeforeSpec(s: string, n: nat)
    requires n <= |s|
    ensures var k := LineStartBefore(s, n);
      k <= n && (forall j :: k <= j < n ==> s[j] != '\n') && (k > 0 ==> s[k - 1] == '\n')
    decreases n
  {
    if n > 0 && s[n - 1] != '\n' {
      LineStartBeforeSpec(s, n - 1);
    }
  }

  /**
   * `preg_replace('/:.*$/', '', part)`. Without modifiers `.` does not match
   * a line break and `$` matches at the end or just before a final line
   * break, so the match starts at the first `:` after the last inner line
   * break and stops before a final one. (The character at `end`, if any,
   * is that final line break, so a `:` found from the line start lies
   * before `end`.)
   */
  function StatusKey(part: string): string
  {
    var end := if |part| > 0 && part[|part| - 1] == '\n' then |part| - 1 else |part|;
    var from := LineStartBefore(part, end);
    match IndexFrom(part, ':', from)
    case None => part
    case Some(j) => part[..j] + part[end..]
  }

  /** The message for one `;`-separated part of the stored status. */
  function DecodePart(part: string): Message
  {
    var key := StatusKey(part);
    var message := if Known(key) then Translated(key) else Raw(part);
    match IndexOf(part, ':')
    case Some(i) => if part[..i] == PatchedKey then PatchedWith(part[i + 1..]) else message
    case None => message
  }

  /** `get_option('oh_ppcp_fix_status', 'not_run')` */
  function StoredOrDefault(options: map<string, string>): string
  {
    if StatusOption in options then options[StatusOption] else NotRunKey
  }

  /** `get_option('oh_ppcp_fix_last_run', 'never')` */
  function LastRunShown(options: map<string, string>): string
  {
    if LastRunOption in options then options[LastRunOption] else "never"
  }

  /** The list items a stored status text gives: one per `;`-separated part. */
  function DecodeText(status: string): (msgs: seq<Message>)
    ensures |msgs| == Count(status, ';') + 1
  {
    var parts := Split(status, ';');
    seq(|parts|, i requires 0 <= i < |parts| => DecodePart(parts[i]))
  }

  /** The list items the page shows for the stored status. */
  function DecodeStatus(options: map<string, string>): (msgs: seq<Message>)
    ensures |msgs| == Count(StoredOrDefault(options), ';') + 1
  {
    DecodeText(StoredOrDefault(options))
  }

  /** The status list the page prints: the stored status (or `not_run`), decoded part by part. */
  method StatusListItems(options: map<string, string>) returns (items: seq<Message>)
    ensures items == DecodeStatus(options)
  {
    var status := StoredOrDefault(options);
    items := DecodeParts(status);
  }

  /** The `foreach ($status_parts as $part)` loop that fills the status list. */
  method DecodeParts(status: string) returns (items: seq<Message>)
    ensures items == DecodeText(status)
  {
    var statusParts := Split(status, ';');
    ghost var shown := DecodeText(status);
    items := [];
    var i := 0;
    while i < |statusParts|
      invariant 0 <= i <= |statusParts| == |shown|
      invariant items == shown[..i]
    {
      assert shown[i] == DecodePart(statusParts[i]);
      items := items + [DecodePart(statusParts[i])];
      i := i + 1;
    }
  }

  /** No character the status format uses as a separator, and no line break. */
  predicate Plain(s: string)
  {
    forall i :: 0 <= i < |s| ==> s[i] != ',' && s[i] != ';' && s[i] != ':' && s[i] != '\n'
  }

  /** None of the listed property names contains a separator. */
  lemma PropNamesPlain()
    ensures forall n :: n in PropNames() ==> Plain(n)
  {
    assert Plain("api_log") && Plain("payment_request") && Plain("merchant_id");
    assert Plain("invoice_prefix") && Plain("landing_page");
    assert Plain("payee_preferred") && Plain("set_billing_address");
  }

  /**
   * A run whose entries decode back: the names of a patched instance are
   * at least one, and each is plain.
   */
  predicate WellFormed(run: Run)
  {
    run.Ran? && run.wfocu.Added? ==>
      |run.wfocu.names| > 0 && forall i :: 0 <= i < |run.wfocu.names| ==> Plain(run.wfocu.names[i])
  }

  /** Every run the patch can take is well formed. */
  lemma DecideWellFormed(host: Host, props: map<string, Value>)
    ensures WellFormed(Decide(host, props))
  {
    var run := Decide(host, props);
    if run.Ran? && run.wfocu.Added? {
      FilterAbsentSpec(PropNames(), props.Keys);
      PropNamesPlain();
      forall i | 0 <= i < |run.wfocu.names|
        ensures Plain(run.wfocu.names[i])
      {
        assert run.wfocu.names[i] in Missing(props);
      }
    }
  }

  /** What the page shows for each run: one list item per recorded entry. */
  function Describe(run: Run): seq<Message>
  {
    match run
    case PaypalInactive => [Translated(PaypalInactiveEntry)]
    case Ran(wfocu, upstrokeAdded) =>
      var first :=
        match wfocu
        case WfocuNotFound => Translated(WfocuNotFoundEntry)
        case AlreadyPatched => Translated(AlreadyPatchedEntry)
        case Added(names) => PatchedWith(Join(names, ','));
      [first, Translated(if upstrokeAdded then UpstrokeAddedEntry else UpstrokeNotNeededEntry)]
  }

  /**
   * On a part without line breaks the regular expression cuts at the first
   * `:`, so the key is everything before it (or the whole part).
   */
  lemma StatusKeyOneLine(part: string)
    requires '\n' !in part
    ensures StatusKey(part) == match IndexOf(part, ':') case None => part case Some(i) => part[..i]
  {
    if |part| > 0 {
      assert part[|part| - 1] in part;
    }
    LineStartBeforeSpec(part, |part|);
    assert part[|part|..] == [];
  }

  /** The first `:` of a prefix without `:` followed by `:` is at the prefix's end. */
  lemma IndexOfAfter(prefix: string, rest: string)
    requires ':' !in prefix
    ensures IndexOf(prefix + [':'] + rest, ':') == Some(|prefix|)
  {
    var s := prefix + [':'] + rest;
    IndexFromSpec(s, ':', 0);
    assert s[|prefix|] == ':';
    assert forall j :: 0 <= j < |prefix| ==> s[j] == prefix[j];
  }

  /** A plain entry that is a key of the translation table decodes to that key. */
  lemma DecodeKnownEntry(entry: string)
    requires Plain(entry) && Known(entry)
    ensures ';' !in entry && DecodePart(entry) == Translated(entry)
  {
    assert ':' !in entry && '\n' !in entry;
    StatusKeyOneLine(entry);
    IndexOfSpec(entry, ':');
  }

  /** The patched entry starts with its key and a `:`, and that prefix has no separator but the `:`. */
  lemma PatchedPrefixSplit()
    ensures PatchedPrefix == PatchedKey + [':']
    ensures ';' !in PatchedPrefix && ':' !in PatchedKey && '\n' !in PatchedKey
  {
  }

  /**
   * `wfocu_class_patched:<details>` decodes to its details, whatever they
   * contain: `explode(':', $part, 2)` splits at the first `:` only.
   */
  lemma DecodePatchedEntry(part: string, details: string)
    requires part == PatchedKey + [':'] + details
    ensures DecodePart(part) == PatchedWith(details)
  {
    PatchedPrefixSplit();
    IndexOfAfter(PatchedKey, details);
    assert part[..|PatchedKey|] == PatchedKey;
    assert part[|PatchedKey| + 1..] == details;
  }

  /** `$part` starts with `wfocu_class_patched:`, the form whose details the page shows. */
  predicate PatchedForm(part: string)
  {
    |part| > |PatchedKey| && part[..|PatchedKey|] == PatchedKey && part[|PatchedKey|] == ':'
  }

  /**
   * What one part decodes to: the patched sentence exactly for the patched
   * form, with the details after its first `:`; otherwise the table's
   * sentence exactly when the regular expression's key is in the table;
   * otherwise the part itself.
   */
  lemma DecodePartSpec(part: string)
    ensures DecodePart(part).PatchedWith? <==> PatchedForm(part)
    ensures DecodePart(part).PatchedWith? ==> part == PatchedKey + [':'] + DecodePart(part).details
    ensures DecodePart(part).Translated? <==> !PatchedForm(part) && Known(StatusKey(part))
    ensures DecodePart(part).Translated? ==> DecodePart(part).key == StatusKey(part)
    ensures DecodePart(part).Raw? ==> DecodePart(part).part == part
  {
    PatchedPrefixSplit();
    IndexOfSpec(part, ':');
    var n := |PatchedKey|;
    if PatchedForm(part) {
      assert forall j :: 0 <= j < n ==> part[j] == PatchedKey[j];
      assert ':' !in part[..n];
      assert IndexOf(part, ':') == Some(n);
      assert part == part[..n] + [':'] + part[n + 1..];
    }
  }

  /** Each fixed status entry is plain and a key of the translation table. */
  lemma NotRunKnown()
    ensures Plain(NotRunKey) && Known(NotRunKey)
  {
  }

  lemma PaypalInactiveKnown()
    ensures Plain(PaypalInactiveEntry) && Known(PaypalInactiveEntry)
  {
  }

  lemma WfocuNotFoundKnown()
    ensures Plain(WfocuNotFoundEntry) && Known(WfocuNotFoundEntry)
  {
  }

  lemma AlreadyPatchedKnown()
    ensures Plain(AlreadyPatchedEntry) && Known(AlreadyPatchedEntry)
  {
  }

  lemma UpstrokeAddedKnown()
    ensures Plain(UpstrokeAddedEntry) && Known(UpstrokeAddedEntry)
  {
  }

  lemma UpstrokeNotNeededKnown()
    ensures Plain(UpstrokeNotNeededEntry) && Known(UpstrokeNotNeededEntry)
  {
  }

  /** The patched entry has no `;` and decodes to its details when its names are plain. */
  lemma DecodePatched(part: string, names: seq<string>)
    requires forall i :: 0 <= i < |names| ==> Plain(names[i])
    requires part == PatchedPrefix + Join(names, ',')
    ensures ';' !in part && DecodePart(part) == PatchedWith(Join(names, ','))
  {
    var details := Join(names, ',');
    JoinAvoids(names, ',', ';');
    PatchedPrefixSplit();
    DecodePatchedEntry(part, details);
  }

  /**
   * Each entry a well-formed run records has no `;` and decodes to the
   * matching item of `Describe`.
   */
  lemma DecodeRecordedEntry(run: Run, i: nat)
    requires WellFormed(run) && i < |StatusParts(run)|
    ensures |Describe(run)| == |StatusParts(run)|
    ensures ';' !in StatusParts(run)[i] && DecodePart(StatusParts(run)[i]) == Describe(run)[i]
  {
    var part := StatusParts(run)[i];
    match run
    case PaypalInactive =>
      PaypalInactiveKnown();
      DecodeKnownEntry(part);
    case Ran(wfocu, upstrokeAdded) =>
      if i == 0 {
        match wfocu
        case WfocuNotFound =>
          WfocuNotFoundKnown();
          DecodeKnownEntry(part);
        case AlreadyPatched =>
          AlreadyPatchedKnown();
          DecodeKnownEntry(part);
        case Added(names) =>
          DecodePatched(part, names);
      } else if upstrokeAdded {
        UpstrokeAddedKnown();
        DecodeKnownEntry(part);
      } else {
        UpstrokeNotNeededKnown();
        DecodeKnownEntry(part);
      }
  }

  /** Joining plain parts with `;` and decoding the text gives back each part's message. */
  lemma DecodeJoined(parts: seq<string>, msgs: seq<Message>)
    requires |parts| >= 1 && |parts| == |msgs|
    requires forall i :: 0 <= i < |parts| ==> ';' !in parts[i] && DecodePart(parts[i]) == msgs[i]
    ensures DecodeText(Join(parts, ';')) == msgs
  {
    SplitJoin(parts, ';');
  }

  /** The status text a well-formed run stores decodes to `Describe(run)`. */
  lemma DecodeStored(run: Run)
    requires WellFormed(run)
    ensures DecodeText(StoredStatus(run)) == Describe(run)
  {
    var parts := StatusParts(run);
    forall i | 0 <= i < |parts|
      ensures ';' !in parts[i] && DecodePart(parts[i]) == Describe(run)[i]
    {
      DecodeRecordedEntry(run, i);
    }
    DecodeJoined(parts, Describe(run));
  }

  /**
   * Round trip: after a well-formed run, the page shows exactly the items
   * `Describe` gives, and the names of a patched instance split back from
   * the details of the first item.
   */
  lemma RoundTrip(options: map<string, string>, run: Run, now: string)
    requires WellFormed(run)
    ensures DecodeStatus(AfterRun(options, run, now)) == Describe(run)
    ensures run.Ran? && run.wfocu.Added? ==>
      Describe(run)[0] == PatchedWith(Join(run.wfocu.names, ',')) &&
      Split(Describe(run)[0].details, ',') == run.wfocu.names
  {
    assert StoredOrDefault(AfterRun(options, run, now)) == StoredStatus(run);
    DecodeStored(run);
    if run.Ran? && run.wfocu.Added? {
      SplitJoin(run.wfocu.names, ',');
    }
  }

  /** The page shows a message of the translation table, or the patched-properties line, never the raw part. */
  predicate KnownMessage(m: Message)
  {
    !m.Raw? && (m.Translated? ==> Known(m.key))
  }

  /** Every item `Describe` gives is a known message. */
  lemma DescribeKnown(run: Run)
    ensures forall i :: 0 <= i < |Describe(run)| ==> KnownMessage(Describe(run)[i])
  {
    match run
    case PaypalInactive =>
      PaypalInactiveKnown();
    case Ran(wfocu, upstrokeAdded) =>
      match wfocu
      case WfocuNotFound => WfocuNotFoundKnown();
      case AlreadyPatched => AlreadyPatchedKnown();
      case Added(_) =>
      if upstrokeAdded {
        UpstrokeAddedKnown();
      } else {
        UpstrokeNotNeededKnown();
      }
  }

  /**
   * Whatever the patch decides, the page shows every recorded entry through
   * the translation table or as the patched-properties line, never raw.
   */
  lemma RecordedEntriesKnown(host: Host, props: map<string, Value>, options: map<string, string>, now: string)
    ensures var shown := DecodeStatus(AfterRun(options, Decide(host, props), now));
      forall i :: 0 <= i < |shown| ==> KnownMessage(shown[i])
  {
    var run := Decide(host, props);
    DecideWellFormed(host, props);
    RoundTrip(options, run, now);
    DescribeKnown(run);
  }

  /** With no status stored the list shows the `not_run` sentence; with no last run stored it shows `never`. */
  lemma NeverRun(options: map<string, string>)
    ensures StatusOption !in options ==> DecodeStatus(options) == [Translated(NotRunKey)]
    ensures LastRunOption !in options ==> LastRunShown(options) == "never"
  {
    if StatusOption !in options {
      var status := StoredOrDefault(options);
      NotRunKnown();
      DecodeKnownEntry(status);
      SplitWithout(status, ';');
    }
  }

}
