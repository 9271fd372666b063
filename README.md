# OctaHexa PPCP deprecated-property fix, modelled in Dafny

The WordPress plugin `octahexa-ppcp-deprecated-fix.php` does two things for
the PayPal for WooCommerce plugin under PHP 8.4:

1. On every load, **the patch** (`oh_patch_ppcp_deprecated_properties`)
   checks that the PayPal for WooCommerce plugin is active
   (`PAYPAL_FOR_WOOCOMMERCE_PLUGIN_DIR` is defined) and that the WFOCU
   PayPal gateway class exists with `get_instance`. When both hold, it sets
   each of seven fixed property names that the gateway singleton lacks to
   `null`. Without this, PHP 8.4 would create those
   properties dynamically later and warn that this is deprecated. The patch
   also notes whether the UpStroke Subscriptions class has to be supplied.
   It stores a `;`-joined status string in the option `oh_ppcp_fix_status`.
   When it changed anything, it also stores the time in
   `oh_ppcp_fix_last_run`.
2. **The settings page** reads the status back. It splits the string on
   `;` and turns each part into one list item:
   - the key of a part is the part with the regular expression `/:.*$/`
     removed;
   - a known key is shown through a fixed translation table;
   - an unknown key is shown as the raw part;
   - `wfocu_class_patched:<names>` is shown as the patched sentence with the
     names after the first `:`.

   A small filter also puts a "Settings" link in front of the plugin's
   action links.

The project has four modules:

- `Strings` (`strings.dfy`) models `strpos`, `explode` and `implode` on one
  character. It proves that `explode` and `implode` are inverse: they
  round-trip both ways when there is at least one piece and no piece
  contains the separator.
- `PpcpPatch` (`patch.dfy`) models the patch:
  - The host (is the PayPal constant defined, do the WFOCU class and its
    `get_instance` exist, does the UpStroke class exist) is an input value
    `Host`.
  - The options table is the class `Site`, with an `options` map.
  - The gateway instance is the class `Gateway`, with a `props` map. It is
    updated in place by the `foreach` loop `Gateway.SetNull`.
  - `PatchDeprecatedProperties` is the patch itself. It is proved against
    the specification functions `Decide`, `PatchedProps` and `AfterRun`,
    and the lemmas prove what the patch promises about them.
- `StatusPage` (`status_page.dfy`) models the status list of the settings
  page:
  - the translation table;
  - the exact PCRE behaviour of `/:.*$/`;
  - the `foreach` loop over the parts.

  It proves that every status the patch can store decodes back to one
  message per entry, never a raw part. It also proves that the property
  names split back out of the patched entry.
- `SettingsLink` (`settings_link.dfy`) is the `array_unshift` of the
  settings anchor.

## Model

| member | source | states |
|---|---|---|
| PpcpPatch.PatchDeprecatedProperties | octahexa-ppcp-deprecated-fix.php:35-91 | One run leaves the option store equal to `AfterRun` of the old store and the instance equal to `PatchedProps` of the old instance. When the PayPal constant is undefined, the store differs only in `oh_ppcp_fix_status` = `paypal_plugin_not_active`, so the last-run option is untouched, and the instance is untouched too. |
| PpcpPatch.PatchWfocuInstance | octahexa-ppcp-deprecated-fix.php:46-72 | The WFOCU step returns the status entry of its outcome (not found, already patched, or `wfocu_class_patched:` with the missing names comma-joined). It reports `patched` exactly when names were added, and backfills exactly those names or leaves the instance alone. |
| PpcpPatch.Gateway.SetNull | octahexa-ppcp-deprecated-fix.php:62-64 | Assigning `null` to each name in turn gives `Backfill` of the old property table. |
| PpcpPatch.PropNames | octahexa-ppcp-deprecated-fix.php:46-49 | The seven property names of `$props`, in their order: `api_log`, `payment_request`, `merchant_id`, `invoice_prefix`, `landing_page`, `payee_preferred`, `set_billing_address`. |
| PpcpPatch.Missing | octahexa-ppcp-deprecated-fix.php:46-59 | The listed property names the instance lacks: `FilterAbsent` of the seven names against the instance's keys. |
| PpcpPatch.FilterAbsent | octahexa-ppcp-deprecated-fix.php:57-59 | `array_filter` with `!property_exists`: the names not in the present set, kept in their order (proved in FilterAbsentSpec). |
| PpcpPatch.Backfill | octahexa-ppcp-deprecated-fix.php:62-64 | The property table after `$instance->$prop = null` for each name in turn (characterised in BackfillSpec). |
| PpcpPatch.WfocuStep | octahexa-ppcp-deprecated-fix.php:52-72 | No instance step when the class or `get_instance` is missing; otherwise `Added` of the missing names when there are any, else `AlreadyPatched`. |
| PpcpPatch.Decide | octahexa-ppcp-deprecated-fix.php:40-83 | `PaypalInactive` when the PayPal constant is undefined; otherwise the WFOCU step and whether the UpStroke branch fires (UpStroke class absent and WFOCU class present). |
| PpcpPatch.IsPatched | octahexa-ppcp-deprecated-fix.php:37-81 | `$patched`: names were added or the UpStroke branch fired. |
| PpcpPatch.PatchedProps | octahexa-ppcp-deprecated-fix.php:52-68 | The instance after a run: backfilled with the missing names when the run adds them, else unchanged. |
| PpcpPatch.WfocuEntry | octahexa-ppcp-deprecated-fix.php:65-71 | The WFOCU status entry: `wfocu_class_not_found`, `wfocu_class_already_patched`, or `wfocu_class_patched:` and the names joined with `,`. |
| PpcpPatch.UpstrokeEntry | octahexa-ppcp-deprecated-fix.php:80-83 | `upstroke_class_added` when the UpStroke branch fires, else `upstroke_class_exists_or_not_needed`. |
| PpcpPatch.StatusParts | octahexa-ppcp-deprecated-fix.php:36-83 | The entries the run stores: `paypal_plugin_not_active` alone (written directly at line 41, without the `$status` list), or the WFOCU entry followed by the UpStroke entry in the order they are appended to `$status`. |
| PpcpPatch.StoredStatus | octahexa-ppcp-deprecated-fix.php:87 | `implode(';', $status)`. |
| PpcpPatch.AfterRun | octahexa-ppcp-deprecated-fix.php:86-90 | The options after a run: the status option set to the joined status, and the last-run option set to `now` only when patched (proved in AfterRunWrites). |
| Strings.IndexOf | octahexa-ppcp-deprecated-fix.php:172 | `strpos($part, ':')`: none, or an index inside the string (the first one, by IndexOfSpec). |
| Strings.IndexFrom | octahexa-ppcp-deprecated-fix.php:169 | The first index at or after `k` holding the character, or none; a found index lies in `k..|s|`. |
| Strings.Join | octahexa-ppcp-deprecated-fix.php:87 | `implode`: the pieces with the glue between neighbours (inverse of Split by JoinSplit and SplitJoin). |
| StatusPage.LineStartBefore | octahexa-ppcp-deprecated-fix.php:169 | The start of the line that ends at `n`, no later than `n` (characterised in LineStartBeforeSpec). |
| StatusPage.StatusKey | octahexa-ppcp-deprecated-fix.php:169 | `preg_replace('/:.*$/', '', $part)`: cut from the first `:` after the last inner line break up to a final line break, if there is such a `:`; else the part unchanged. |
| StatusPage.DecodePart | octahexa-ppcp-deprecated-fix.php:168-176 | The list item of one part: the patched sentence with the text after the first `:` when the text before it is `wfocu_class_patched`; else the table sentence when the key is known; else the raw part (proved in DecodePartSpec). |
| StatusPage.Key | octahexa-ppcp-deprecated-fix.php:129-137 | The key of each row of `$translation`, in its order. |
| StatusPage.Sentence | octahexa-ppcp-deprecated-fix.php:129-137 | The sentence of each row of `$translation`. |
| StatusPage.RowFrom | octahexa-ppcp-deprecated-fix.php:129-137 | The first row from a given one whose key is the key; a found row lies in the table. |
| StatusPage.Translate | octahexa-ppcp-deprecated-fix.php:129-137 | `$translation[$key]`: the sentence of the row carrying the key, or none (TranslateSpec). |
| StatusPage.Known | octahexa-ppcp-deprecated-fix.php:170 | `isset($translation[$status_key])`: some row carries the key. |
| StatusPage.StoredOrDefault | octahexa-ppcp-deprecated-fix.php:125 | `get_option('oh_ppcp_fix_status', 'not_run')`. |
| StatusPage.LastRunShown | octahexa-ppcp-deprecated-fix.php:126 | `get_option('oh_ppcp_fix_last_run', 'never')`. |
| StatusPage.MessageText | octahexa-ppcp-deprecated-fix.php:170-175 | The text of an item: the table sentence, the patched sentence around the details, or the raw part; display only, used in no contract. |
| PpcpPatch.FilterAbsentSpec | octahexa-ppcp-deprecated-fix.php:57-59 | The missing list holds exactly the listed names that are not properties of the instance, in the order of the fixed list (a subsequence of it). |
| PpcpPatch.FilterAllPresent | octahexa-ppcp-deprecated-fix.php:57-61 | When every listed name is a property, the missing list is empty. |
| PpcpPatch.BackfillSpec | octahexa-ppcp-deprecated-fix.php:62-64 | Backfilling adds exactly the given names, each as `null`, and keeps every other property's value. |
| PpcpPatch.BackfillAbsent | octahexa-ppcp-deprecated-fix.php:57-64 | Backfilling the absent names makes every listed name present, keeps existing values, adds only listed names as `null`, and leaves none absent. |
| PpcpPatch.PatchedPropsBackfill | octahexa-ppcp-deprecated-fix.php:52-68 | When the WFOCU class and `get_instance` exist, the instance after the run is the backfill of its missing names; an empty missing list changes nothing. |
| PpcpPatch.PatchFillsListed | octahexa-ppcp-deprecated-fix.php:52-72 | After a run that reaches the instance, every listed property exists; old properties keep their values; new ones are listed names and `null`. Otherwise the instance is unchanged. |
| PpcpPatch.NothingMissingAfterPatch | octahexa-ppcp-deprecated-fix.php:57-64 | After a run that reaches the instance, no listed property is missing. |
| PpcpPatch.PatchIdempotent | octahexa-ppcp-deprecated-fix.php:57-68 | A second run leaves the patched instance as it is, and when it reaches the instance it records `wfocu_class_already_patched`. |
| PpcpPatch.PatchedIff | octahexa-ppcp-deprecated-fix.php:37-83 | `$patched` ends true iff PayPal is active and either the instance lacked a listed property (class and `get_instance` exist) or the UpStroke branch fired. The UpStroke branch fires iff the UpStroke class is absent and the WFOCU class exists, whatever `get_instance`. |
| PpcpPatch.AfterRunWrites | octahexa-ppcp-deprecated-fix.php:86-90 | The status option always holds the joined status. The last-run option becomes `now` exactly when the run patched something and is otherwise as it was. No other option changes. |
| Strings.IndexOfSpec | octahexa-ppcp-deprecated-fix.php:172 | `strpos` finds nothing iff the character is absent, else the first index holding it. |
| Strings.IndexFromSpec | octahexa-ppcp-deprecated-fix.php:169-173 | A search from index `k` finds nothing iff the character does not occur from `k` on, else the first such index. |
| Strings.Split | octahexa-ppcp-deprecated-fix.php:127 | `explode` gives one piece more than the number of separators, and no piece contains the separator. |
| Strings.JoinSplit | octahexa-ppcp-deprecated-fix.php:127 | `implode(explode(s))` is `s`. |
| Strings.SplitJoin | octahexa-ppcp-deprecated-fix.php:127 | `explode(implode(parts))` is `parts` when there is at least one part and none contains the separator. |
| Strings.JoinAvoids | octahexa-ppcp-deprecated-fix.php:65 | Gluing pieces that avoid a character other than the glue gives a string that avoids it. |
| Strings.SplitWithout | octahexa-ppcp-deprecated-fix.php:127 | A string without the separator explodes to itself alone. |
| Strings.SplitAfterPiece | octahexa-ppcp-deprecated-fix.php:127 | Exploding `a;b`, with `a` free of `;`, gives `a` followed by the pieces of `b`. |
| StatusPage.RowFromSpec | octahexa-ppcp-deprecated-fix.php:129-137 | The table search from a row finds nothing iff no later row has the key, and a row it finds carries the key. |
| StatusPage.TranslateSpec | octahexa-ppcp-deprecated-fix.php:129-137 | `$translation[$key]` is set iff some row of the table has the key, and then it is that row's sentence. |
| StatusPage.LineStartBeforeSpec | octahexa-ppcp-deprecated-fix.php:169 | The line start before `n` has no line break between it and `n`, and a line break just before it. |
| StatusPage.StatusKeyOneLine | octahexa-ppcp-deprecated-fix.php:169 | On a part without line breaks, `preg_replace('/:.*$/', '', $part)` is the part up to its first `:`, or the whole part. |
| StatusPage.DecodePartSpec | octahexa-ppcp-deprecated-fix.php:168-176 | A part shows the patched sentence iff it starts with `wfocu_class_patched:`, with the text after that `:` as details. Otherwise it shows the table sentence iff its key is in the table. Otherwise it shows the raw part. |
| StatusPage.DecodeText | octahexa-ppcp-deprecated-fix.php:127 | There is one list item per `;`-separated part. |
| StatusPage.DecodeStatus | octahexa-ppcp-deprecated-fix.php:125-127 | The page's list has one item per `;`-separated part of the stored status, or of `not_run` when none is stored. |
| StatusPage.StatusListItems | octahexa-ppcp-deprecated-fix.php:125-180 | The page's loop yields exactly `DecodeStatus` of the options. |
| StatusPage.DecodeParts | octahexa-ppcp-deprecated-fix.php:168-180 | The `foreach` over the parts yields exactly `DecodeText` of the status. |
| StatusPage.DecideWellFormed | octahexa-ppcp-deprecated-fix.php:46-65 | Whatever the host and instance, the patched entry lists at least one name, and no name contains `,`, `;`, `:` or a line break. |
| StatusPage.PropNamesPlain | octahexa-ppcp-deprecated-fix.php:46-49 | None of the seven property names contains `,`, `;`, `:` or a line break. |
| StatusPage.NotRunKnown | octahexa-ppcp-deprecated-fix.php:125-130 | The default `not_run` is plain and a key of the table. |
| StatusPage.PaypalInactiveKnown | octahexa-ppcp-deprecated-fix.php:131 | `paypal_plugin_not_active` is plain and a key of the table. |
| StatusPage.WfocuNotFoundKnown | octahexa-ppcp-deprecated-fix.php:132 | `wfocu_class_not_found` is plain and a key of the table. |
| StatusPage.AlreadyPatchedKnown | octahexa-ppcp-deprecated-fix.php:134 | `wfocu_class_already_patched` is plain and a key of the table. |
| StatusPage.UpstrokeAddedKnown | octahexa-ppcp-deprecated-fix.php:135 | `upstroke_class_added` is plain and a key of the table. |
| StatusPage.UpstrokeNotNeededKnown | octahexa-ppcp-deprecated-fix.php:136 | `upstroke_class_exists_or_not_needed` is plain and a key of the table. |
| StatusPage.PatchedPrefixSplit | octahexa-ppcp-deprecated-fix.php:174 | The patched entry's prefix is the key `wfocu_class_patched` and a `:`; the key has no `:` or line break and the prefix no `;`. |
| StatusPage.DecodeKnownEntry | octahexa-ppcp-deprecated-fix.php:169-170 | An entry free of separators whose text is a table key has no `;` and decodes to that key's sentence. |
| StatusPage.DecodePatchedEntry | octahexa-ppcp-deprecated-fix.php:172-175 | `wfocu_class_patched:<details>` decodes to the patched sentence with exactly those details, whatever they contain, since the part is cut at its first `:` only. |
| StatusPage.DecodePatched | octahexa-ppcp-deprecated-fix.php:172-175 | The patched entry of plain names has no `;` and decodes to the comma-joined names. |
| StatusPage.DecodeRecordedEntry | octahexa-ppcp-deprecated-fix.php:168-176 | Each entry a well-formed run records has no `;` and decodes to the matching item of `Describe`. |
| StatusPage.DecodeJoined | octahexa-ppcp-deprecated-fix.php:127 | Decoding the `;`-join of parts without `;` gives back each part's message. |
| StatusPage.DecodeStored | octahexa-ppcp-deprecated-fix.php:168-176 | The status string a well-formed run stores decodes to `Describe(run)`. |
| StatusPage.RoundTrip | octahexa-ppcp-deprecated-fix.php:35-176 | After a run, the page lists exactly `Describe(run)`. For a patched instance the first item's details are the comma-joined missing names, and they explode back to those names. |
| StatusPage.DescribeKnown | octahexa-ppcp-deprecated-fix.php:129-137 | Every item `Describe` gives is the patched sentence or a key of the translation table, never raw. |
| StatusPage.RecordedEntriesKnown | octahexa-ppcp-deprecated-fix.php:35-176 | Whatever the patch decides, every item the page then lists comes through the translation table or is the patched sentence, never the raw part. |
| StatusPage.NeverRun | octahexa-ppcp-deprecated-fix.php:125-126 | With no status stored, the list is the single `not_run` sentence; with no last run stored, the last run shows `never`. Each holds on its own. |
| SettingsLink.SettingsUrl | octahexa-ppcp-deprecated-fix.php:219 | The settings URL is the admin base URL followed by `options-general.php?page=octahexa-ppcp-fix`. |
| SettingsLink.SettingsAnchor | octahexa-ppcp-deprecated-fix.php:220 | The anchor is `<a href="`, the URL, then `">Settings</a>`. |
| SettingsLink.AddSettingsLink | octahexa-ppcp-deprecated-fix.php:218-223 | The result is one longer, has the settings anchor at index 0, and has the original links after it in their order. |
| SettingsLink.AddSettingsLinkKeeps | octahexa-ppcp-deprecated-fix.php:221 | The result holds exactly the original links plus one settings anchor, counting repeats. |

## Left out

- The hooks are not modelled: hook registration (`add_action`, `add_filter`), the options page (`add_options_page`), styles and `current_user_can`. They are host framework calls.
- All HTML output except the list-item texts is left out: the tables, the PHP version check and the debug block. This is presentation only.
- MessageText: `esc_html` of the patched details is not modelled, so it shows the details as stored. The source escapes them (`<b>` prints as `&lt;b&gt;`). This makes no difference for statuses the patch writes, whose details are the seven plain property names. MessageText is display-only and appears in no contract.
- SettingsAnchor: `esc_url` of the settings URL is not modelled, so the anchor holds the URL as given. For a real admin base URL followed by the page's query, escaping changes nothing. `adminBase` itself is not constrained.
- `class_exists`, `method_exists`, `defined` and `get_instance` are the input `Host`, and `property_exists` is key membership in the instance's property table. Dynamic and declared properties are not told apart. `property_exists` stays true for a declared property that was `unset`, and the map cannot show that.
- `includes/class-upstroke-subscriptions-angelleye-ppcp.php` is not part of this model. Only the status entry its `require_once` leads to is modelled, and the host flags do not change during a run.
- `current_time('mysql')` is the parameter `now`. `admin_url` is the concatenation of a base URL parameter with the page's query.
- WordPress's `update_option`/`get_option` persistence, caching and autoloading are left out. The option store is a map from names to strings.
- The order in which PHP lists an object's properties is left out. The instance is a map from names to values, so order and magic `__set` are not modelled.
- `$links` is a sequence, so any string keys of the action-links array are left out.
- The key extraction models `/:.*$/` exactly, including parts with line breaks. Only its newline-free case is related to "the text before the first `:`" (StatusKeyOneLine). Every status the patch writes is newline-free.
