/**
 * The patch that runs on `plugins_loaded`: when the PayPal for WooCommerce
 * plugin is active, give the WFOCU gateway singleton every property of a
 * fixed list that it lacks (as `null`, so that PHP 8.4 does not create them
 * dynamically later), note whether the UpStroke Subscriptions class has to
 * be supplied, and record what happened in the options store.
 *
 * The host environment (is a constant defined, does a class or method
 * exist) is an input `Host`; the options store and the gateway's property
 * table are objects the patch updates in place.
 */
module PpcpPatch {
  import opened Strings

  /** A PHP value held by an object property; the patch only ever writes `null`. */
  datatype Value = Null | Bool(b: bool) | Int(i: int) | Str(s: string) | Ref(id: nat)

  /** Option keys in the WordPress options table. */
  const StatusOption: string := "oh_ppcp_fix_status"
  const LastRunOption: string := "oh_ppcp_fix_last_run"

  /** The status entries a run can record. */
  const PaypalInactiveEntry: string := "paypal_plugin_not_active"
  const WfocuNotFoundEntry: string := "wfocu_class_not_found"
  const AlreadyPatchedEntry: string := "wfocu_class_already_patched"
  const PatchedPrefix: string := "wfocu_class_patched:"
  const UpstrokeAddedEntry: string := "upstroke_class_added"
  const UpstrokeNotNeededEntry: string := "upstroke_class_exists_or_not_needed"

  /** The properties the WFOCU gateway must not create dynamically. */
  function PropNames(): seq<string>
  {
    ["api_log", "payment_request", "merchant_id", "invoice_prefix",
     "landing_page", "payee_preferred", "set_billing_address"]
  }

  /**
   * What the patch asks of its host: is `PAYPAL_FOR_WOOCOMMERCE_PLUGIN_DIR`
   * defined, does the WFOCU gateway class exist and have `get_instance`,
   * does the UpStroke Subscriptions class exist.
   */
  datatype Host = Host(
    paypalActive: bool,
    wfocuClassExists: bool,
    wfocuHasGetInstance: bool,
    upstrokeClassExists: bool)

  /** What happened to the WFOCU gateway instance. */
  datatype WfocuOutcome = WfocuNotFound | AlreadyPatched | Added(names: seq<string>)

  /** The decision one run of the patch takes. */
  datatype Run = PaypalInactive | Ran(wfocu: WfocuOutcome, upstrokeAdded: bool)

  /** `a` is `b` with some elements deleted, the rest kept in order. */
  predicate IsSubsequence(a: seq<string>, b: seq<string>)
    decreases |b|
  {
    |a| <= |b| &&
    (|a| == 0 ||
     if a[0] == b[0] then IsSubsequence(a[1..], b[1..]) else IsSubsequence(a, b[1..]))
  }

  /** The names of `names` that are not in `present`, in the order of `names`. */
  function FilterAbsent(names: seq<string>, present: set<string>): seq<string>
    decreases |names|
  {
    if |names| == 0 then []
    else if names[0] in present then FilterAbsent(names[1..], present)
    else [names[0]] + FilterAbsent(names[1..], present)
  }

  /**
   * The filter keeps exactly the names not present, and keeps them in
   * their original order.
   */
  lemma {:induction false} FilterAbsentSpec(names: seq<string>, present: set<string>)
    ensures forall x :: x in FilterAbsent(names, present) <==> x in names && x !in present
    ensures IsSubsequence(FilterAbsent(names, present), names)
    decreases |names|
  {
    if |names| > 0 {
      FilterAbsentSpec(names[1..], present);
      assert names == [names[0]] + names[1..];
    }
  }

  /** When every name is present, nothing is left after the filter. */
  lemma {:induction false} FilterAllPresent(names: seq<string>, present: set<string>)
    requires forall n :: n in names ==> n in present
    ensures FilterAbsent(names, present) == []
    decreases |names|
  {
    if |names| > 0 {
      assert names[0] in names;
      FilterAllPresent(names[1..], present);
    }
  }

  /** The listed properties the instance lacks, in list order. */
  function Missing(props: map<string, Value>): seq<string>
  {
    FilterAbsent(PropNames(), props.Keys)
  }

  /** The property table after `$instance->$prop = null` for each name in turn. */
  function Backfill(props: map<string, Value>, names: seq<string>): map<string, Value>
    decreases |names|
  {
    if |names| == 0 then props
    else Backfill(props, names[..|names| - 1])[names[|names| - 1] := Null]
  }

  /**
   * Backfilling adds exactly the given names, each as `null`, and leaves
   * every other property as it was.
   */
  lemma {:induction false} BackfillSpec(props: map<string, Value>, names: seq<string>)
    ensures forall k :: k in Backfill(props, names) <==> k in props || k in names
    ensures forall k :: k in names ==> Backfill(props, names)[k] == Null
    ensures forall k :: k in props && k !in names ==> Backfill(props, names)[k] == props[k]
    decreases |names|
  {
    if |names| > 0 {
      var init := names[..|names| - 1];
      BackfillSpec(props, init);
      assert names == init + [names[|names| - 1]];
    }
  }

  /** What the WFOCU step does, from the host and the instance's properties. */
  function WfocuStep(host: Host, props: map<string, Value>): WfocuOutcome
  {
    if host.wfocuClassExists && host.wfocuHasGetInstance then
      var missing := Missing(props);
      if |missing| > 0 then Added(missing) else AlreadyPatched
    else WfocuNotFound
  }

  /** The decision of one run, from the host and the instance's properties. */
  function Decide(host: Host, props: map<string, Value>): Run
  {
    if !host.paypalActive then PaypalInactive
    else Ran(WfocuStep(host, props), !host.upstrokeClassExists && host.wfocuClassExists)
  }

  /** The `$patched` flag at the end of a run. */
  predicate IsPatched(run: Run)
  {
    run.Ran? && (run.wfocu.Added? || run.upstrokeAdded)
  }

  /** The instance's property table after a run. */
  function PatchedProps(host: Host, props: map<string, Value>): map<string, Value>
  {
    var run := Decide(host, props);
    if run.Ran? && run.wfocu.Added? then Backfill(props, run.wfocu.names) else props
  }

  /** The entries of the `$status` list, in the order the run appends them. */
  function StatusParts(run: Run): seq<string>
  {
    match run
    case PaypalInactive => [PaypalInactiveEntry]
    case Ran(wfocu, upstrokeAdded) => [WfocuEntry(wfocu), UpstrokeEntry(upstrokeAdded)]
  }

  /** The status entry for the WFOCU gateway. */
  function WfocuEntry(wfocu: WfocuOutcome): string
  {
    match wfocu
    case WfocuNotFound => WfocuNotFoundEntry
    case AlreadyPatched => AlreadyPatchedEntry
    case Added(names) => PatchedPrefix + Join(names, ',')
  }

  /** The status entry for the UpStroke Subscriptions class. */
  function UpstrokeEntry(added: bool): string
  {
    if added then UpstrokeAddedEntry else UpstrokeNotNeededEntry
  }

  /** The string stored under `oh_ppcp_fix_status`. */
  function StoredStatus(run: Run): string
  {
    Join(StatusParts(run), ';')
  }

  /** The options store after a run that ended at time `now`. */
  function AfterRun(options: map<string, string>, run: Run, now: string): map<string, string>
  {
    var written := options[StatusOption := StoredStatus(run)];
    if IsPatched(run) then written[LastRunOption := now] else written
  }

  /**
   * Backfilling the names a table lacks makes every name present, keeps the
   * table's own entries, adds only `null` entries for those names, and
   * leaves nothing to backfill afterwards.
   */
  lemma BackfillAbsent(names: seq<string>, props: map<string, Value>)
    ensures var after := Backfill(props, FilterAbsent(names, props.Keys));
      && (forall n :: n in names ==> n in after)
      && (forall k :: k in props ==> k in after && after[k] == props[k])
      && (forall k :: k in after && k !in props ==> k in names && after[k] == Null)
      && FilterAbsent(names, after.Keys) == []
  {
    var missing := FilterAbsent(names, props.Keys);
    var after := Backfill(props, missing);
    FilterAbsentSpec(names, props.Keys);
    BackfillSpec(props, missing);
    forall n | n in names
      ensures n in after
    {
      if n !in props {
        assert n in missing;
      }
    }
    forall k | k in props
      ensures k in after && after[k] == props[k]
    {
      assert k !in missing;
    }
    FilterAllPresent(names, after.Keys);
  }

  /** A run that reaches the WFOCU instance backfills exactly its missing properties. */
  lemma PatchedPropsBackfill(host: Host, props: map<string, Value>)
    requires host.paypalActive && host.wfocuClassExists && host.wfocuHasGetInstance
    ensures PatchedProps(host, props) == Backfill(props, Missing(props))
  {
    if |Missing(props)| == 0 {
      assert Backfill(props, Missing(props)) == props;
    }
  }

  /**
   * Once the WFOCU branch runs, every listed property exists; properties
   * that were there keep their values, the new ones are `null`, and nothing
   * outside the list is added. Outside that branch the instance is untouched.
   */
  lemma PatchFillsListed(host: Host, props: map<string, Value>)
    ensures var after := PatchedProps(host, props);
      host.paypalActive && host.wfocuClassExists && host.wfocuHasGetInstance ==>
        && (forall n :: n in PropNames() ==> n in after)
        && (forall k :: k in props ==> k in after && after[k] == props[k])
        && (forall k :: k in after && k !in props ==> k in PropNames() && after[k] == Null)
    ensures !(host.paypalActive && host.wfocuClassExists && host.wfocuHasGetInstance) ==>
      PatchedProps(host, props) == props
  {
    if host.paypalActive && host.wfocuClassExists && host.wfocuHasGetInstance {
      PatchedPropsBackfill(host, props);
      BackfillAbsent(PropNames(), props);
    }
  }

  /** After a run that reaches the WFOCU instance, no listed property is missing. */
  lemma NothingMissingAfterPatch(host: Host, props: map<string, Value>)
    requires host.paypalActive && host.wfocuClassExists && host.wfocuHasGetInstance
    ensures Missing(PatchedProps(host, props)) == []
  {
    PatchedPropsBackfill(host, props);
    BackfillAbsent(PropNames(), props);
  }

  /**
   * A second run on the patched instance adds nothing, and when the WFOCU
   * branch runs it reports the class as already patched.
   */
  lemma PatchIdempotent(host: Host, props: map<string, Value>)
    ensures var after := PatchedProps(host, props);
      && PatchedProps(host, after) == after
      && (host.paypalActive && host.wfocuClassExists && host.wfocuHasGetInstance ==>
            Decide(host, after).wfocu == AlreadyPatched)
  {
    if host.paypalActive && host.wfocuClassExists && host.wfocuHasGetInstance {
      NothingMissingAfterPatch(host, props);
    }
  }

  /**
   * `$patched` ends up true exactly when some listed property was missing
   * from a reachable WFOCU instance, or when the UpStroke class had to be
   * supplied; the latter depends on the WFOCU class existing, whether or not
   * it has `get_instance`.
   */
  lemma PatchedIff(host: Host, props: map<string, Value>)
    ensures IsPatched(Decide(host, props)) <==>
      host.paypalActive &&
      ((host.wfocuClassExists && host.wfocuHasGetInstance &&
        exists n :: n in PropNames() && n !in props) ||
       (!host.upstrokeClassExists && host.wfocuClassExists))
    ensures Decide(host, props).Ran? ==>
      (Decide(host, props).upstrokeAdded <==> !host.upstrokeClassExists && host.wfocuClassExists)
  {
    FilterAbsentSpec(PropNames(), props.Keys);
    if |Missing(props)| > 0 {
      assert Missing(props)[0] in Missing(props);
    }
  }

  /**
   * The status option always holds the encoded status; the last-run option
   * is set to `now` when the run patched something and is otherwise left as
   * it was; no other option changes.
   */
  lemma AfterRunWrites(options: map<string, string>, run: Run, now: string)
    ensures var after := AfterRun(options, run, now);
      && StatusOption in after && after[StatusOption] == StoredStatus(run)
      && (IsPatched(run) ==> LastRunOption in after && after[LastRunOption] == now)
      && (!IsPatched(run) ==>
            (LastRunOption in after <==> LastRunOption in options) &&
            (LastRunOption in options ==> after[LastRunOption] == options[LastRunOption]))
      && (forall k :: k != StatusOption && k != LastRunOption ==>
            (k in after <==> k in options) && (k in options ==> after[k] == options[k]))
  {
  }

  /** The WordPress options table. */
  class Site {
    var options: map<string, string>
  }

  /** The WFOCU PayPal gateway singleton, seen as its property table. */
  class Gateway {
    var props: map<string, Value>

    /** `foreach ($names as $prop) { $instance->$prop = null; }` */
    method SetNull(names: seq<string>)
      modifies this
      ensures props == Backfill(old(props), names)
    {
      var i := 0;
      while i < |names|
        invariant 0 <= i <= |names|
        invariant props == Backfill(old(props), names[..i])
      {
        assert names[..i + 1][..i] == names[..i];
        props := props[names[i] := Null];
        i := i + 1;
      }
      assert names[..i] == names;
    }
  }

  /**
   * One run of the patch. `now` stands for `current_time('mysql')`; the
   * `require_once` of the UpStroke class file is represented only by the
   * status entry it produces.
   */
  method PatchDeprecatedProperties(host: Host, site: Site, gateway: Gateway, now: string)
    modifies site, gateway
    ensures site.options == AfterRun(old(site.options), Decide(host, old(gateway.props)), now)
    ensures gateway.props == PatchedProps(host, old(gateway.props))
    ensures !host.paypalActive ==>
      site.options == old(site.options)[StatusOption := PaypalInactiveEntry] &&
      gateway.props == old(gateway.props)
  {
    var status: seq<string> := [];
    var patched := false;

    if !host.paypalActive {
      site.options := site.options[StatusOption := PaypalInactiveEntry];
      assert StoredStatus(PaypalInactive) == PaypalInactiveEntry;
      return;
    }

    ghost var run := Decide(host, old(gateway.props));
    var entry, wfocuPatched := PatchWfocuInstance(host, gateway);
    status := status + [entry];
    patched := wfocuPatched;

    if !host.upstrokeClassExists && host.wfocuClassExists {
      status := status + [UpstrokeAddedEntry];
      patched := true;
    } else {
      status := status + [UpstrokeNotNeededEntry];
    }

    assert status == StatusParts(run);
    assert patched == IsPatched(run);
    assert Join(status, ';') == StoredStatus(run);
    site.options := site.options[StatusOption := Join(status, ';')];
    if patched {
      site.options := site.options[LastRunOption := now];
    }
    assert site.options == AfterRun(old(site.options), run, now);
  }

  /**
   * The WFOCU step of a run: when the gateway class and its `get_instance`
   * exist, set each listed property the instance lacks to `null`; return
   * the status entry of the step and whether it patched the instance.
   */
  method PatchWfocuInstance(host: Host, gateway: Gateway) returns (entry: string, patched: bool)
    modifies gateway
    ensures entry == WfocuEntry(WfocuStep(host, old(gateway.props)))
    ensures patched == WfocuStep(host, old(gateway.props)).Added?
    ensures WfocuStep(host, old(gateway.props)).Added? ==>
      gateway.props == Backfill(old(gateway.props), WfocuStep(host, old(gateway.props)).names)
    ensures !WfocuStep(host, old(gateway.props)).Added? ==> gateway.props == old(gateway.props)
  {
    var props := PropNames();
    if host.wfocuClassExists && host.wfocuHasGetInstance {
      var missing := FilterAbsent(props, gateway.props.Keys);
      if |missing| > 0 {
        gateway.SetNull(missing);
        entry := PatchedPrefix + Join(missing, ',');
        patched := true;
      } else {
        entry := AlreadyPatchedEntry;
        patched := false;
      }
    } else {
      entry := WfocuNotFoundEntry;
      patched := false;
    }
  }
}
