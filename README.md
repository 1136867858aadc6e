# Auto-webhook decision logic of the Razorpay Drupal Commerce plugin

When a merchant saves the Razorpay credentials, `AutoWebhook::autoEnableWebhook`
registers the store's payment-notification URL as a webhook on the Razorpay
account. It works in five steps:

1. It refuses to act for a host that resolves to a private or reserved address.
2. It keeps the stored webhook secret, or makes a fresh one, and overwrites the
   `razorpay_flags` config bag with exactly that secret and a timestamp.
3. It gives up, with no remote call, when either credential is loosely null.
4. It pages through the account's webhooks ten at a time, collecting them all.
5. It scans them for one whose URL is strictly equal to the notification URL.
   It merges the events enabled on every such webhook into the object's
   `defaultWebhookEvents`. Then it edits the last match, or creates a new
   webhook when there is none.

This project models those decisions in Dafny and proves what they guarantee.
The Drupal, SDK and PHP-runtime calls become parameters and results:

- the host check is a boolean;
- the config bag is a map in and a map out;
- `time()` is a number;
- `str_shuffle` is a permutation of the alphabet's positions;
- the `webhook->all` answers are a sequence of responses;
- the `create`/`edit` call is the action a run returns.

Modules, one per part of the source:

- `WebhookTypes` (`webhook_types.dfy`): flag values, webhook records, pages,
  responses, the request body, actions and outcomes.
- `WebhookSecret` (`webhook_secret.dfy`): the 90-character alphabet,
  `generateWebhookSecret`, the choice between the stored and a fresh secret,
  and the bag written back.
- `Pagination` (`pagination.dfy`): the `do … while` listing loop as a method,
  the specification functions it is proved against, and lemmas about them.
- `Reconcile` (`reconcile.dfy`): PHP's loose `in_array` check, the merge of
  enabled events, and the match scan with its properties. It also defines the
  intended supported-event check beside the one the code has.
- `AutoWebhookCore` (`auto_webhook.dfy`): class `AutoWebhook`. Its field
  `defaultWebhookEvents` is updated in place by the nested loops, and
  `AutoEnableWebhook` sequences one run.

Where the design description of the system and the code disagree, the model
follows the code:

- The code keeps the **last** matching webhook, because its loop has no `break`.
- The code sends the **pre-merge** events in the request body. PHP copies the
  array into `$requestBody` before the merge runs. The merged map only stays
  on the object, so the next run on the same object sends it.
- The loop stops on the **reported** `count` not being exactly 10, not on the
  number of items returned. A page reporting count 0 adds nothing.
- The secret comes from `str_shuffle`, which is not a cryptographic source.
  The model takes the permutation as a parameter and proves only its shape.

## Model

| member | source | states |
|---|---|---|
| `WebhookSecret.AlphabetDistinct` | src/AutoWebhook.php:23 | the secret alphabet has 90 characters, no two alike |
| `WebhookSecret.Shuffled` | src/AutoWebhook.php:25 | `str_shuffle` of the alphabet yields 90 pairwise distinct characters, each from the alphabet |
| `WebhookSecret.GenerateWebhookSecret` | src/AutoWebhook.php:21-26 | a generated secret has exactly 20 characters; it is a prefix of the shuffled alphabet, its characters come from the alphabet and are pairwise distinct |
| `WebhookSecret.ChooseSecret` | src/AutoWebhook.php:46-48 | a stored secret that PHP does not call `empty()` is reused verbatim, otherwise a freshly generated one is used; the chosen secret is never `empty()` |
| `WebhookSecret.SavedFlags` | src/AutoWebhook.php:50-55 | the bag written back has exactly the keys `webhook_secret` and `webhook_enable_at`; every other previous flag is dropped |
| `WebhookSecret.SecretStableAcrossRuns` | src/AutoWebhook.php:46-55 | after one run has saved its bag, the next run reuses that secret whatever its shuffle and time |
| `Pagination.FirstStop` | src/AutoWebhook.php:93-103 | the loop ends at the first response that throws or reports a count other than exactly 10, and at no earlier one |
| `Pagination.FetchAllWebhooks` | src/AutoWebhook.php:57-103 | the k-th request has count 10 and skip 10·k; there are exactly FirstStop + 1 requests; the result is the in-order concatenation of every fetched page's items (pages with count ≤ 0 add none), or the exception of the stopping response |
| `Pagination.AccumulatedAppend` | src/AutoWebhook.php:96-102 | accumulating two runs of responses concatenates their items in order |
| `Pagination.ZeroCountAddsNothing` | src/AutoWebhook.php:96 | a page that reports count 0 adds nothing, whatever items it carries |
| `Pagination.HonestPrefix` | src/AutoWebhook.php:87-102 | against a processor that answers truthfully, the first n full pages collect exactly the first 10·n webhooks |
| `Pagination.HonestListing` | src/AutoWebhook.php:87-103 | against a truthful processor holding N webhooks the loop makes N div 10 + 1 requests and collects all N in order; with none it makes one request and collects nothing |
| `Reconcile.InArrayAcceptsTruthyNames` | src/AutoWebhook.php:121 | `in_array` against the supported map's values accepts an event name exactly when it is neither "" nor "0" |
| `Reconcile.MergeEvents` | src/AutoWebhook.php:118-125 | merging one webhook's events sets to true exactly the names it enables that pass the check, and changes nothing else |
| `Reconcile.Scan` | src/AutoWebhook.php:112-130 | `webhookExist` holds iff some collected item's url is strictly equal to the target, iff an id was recorded; the id is that of the last such item; the event map gains true for every name enabled and accepted on any matching item, and is otherwise unchanged |
| `Reconcile.ScanOnlyTowardsTrue` | src/AutoWebhook.php:118-124 | the merge never removes a key and never turns an entry false; every key it adds is enabled and accepted on a matching item |
| `Reconcile.ScanIdempotent` | src/AutoWebhook.php:114-129 | scanning the same listing again from the merged map changes nothing |
| `Reconcile.FiltersAgreeOnSupportedEvents` | src/AutoWebhook.php:120-121 | the check as written and the intended key check give the same result whenever every event enabled on a matching item is supported or named "" or "0" |
| `Reconcile.IntendedMergeStaysSupported` | src/AutoWebhook.php:118-124 | with the intended key check, the merge adds no unsupported event and keeps every supported event enabled on a matching item true |
| `Reconcile.UnsupportedEventMergedAsWritten` | src/AutoWebhook.php:120-123 | as written, a matching webhook enabling "order.paid" switches that unsupported event on; with the intended check the default map is unchanged |
| `AutoWebhookCore.AutoWebhook.constructor` | src/AutoWebhook.php:11-19 | both properties start as {payment.authorized: true, refund.created: true} |
| `AutoWebhookCore.AutoWebhook.MergeWebhookEvents` | src/AutoWebhook.php:118-125 | the inner loop leaves the property equal to the merge of its old value with the item's events |
| `AutoWebhookCore.AutoWebhook.MatchAndMerge` | src/AutoWebhook.php:112-130 | the outer loop's `webhookExist`, `webhookId` and the property after it equal the scan of the collected items from the property's old value |
| `AutoWebhookCore.AutoWebhook.AutoEnableWebhook` | src/AutoWebhook.php:28-156 | a private host does nothing; otherwise the bag is saved before the credentials are checked; missing credentials make no remote call; a failed listing yields its error with the events untouched; else the body is {url, active: true, pre-merge events, secret}, and the single action is edit of the last match or create |
| `AutoWebhookCore.MixedListingFetched` | src/AutoWebhook.php:87-103 | a one-page listing reporting count 1 takes one request and yields its item |
| `AutoWebhookCore.MixedWebhookScanned` | src/AutoWebhook.php:114-128 | scanning a webhook that enables "order.paid" finds it under its id and merges that event in |
| `AutoWebhookCore.RepeatedRunSendsMergedEvents` | src/AutoWebhook.php:105-145 | on one object, a first run edits with the default events only; a second run sends the events the first merged, under the same secret |

## Left out

- Host resolution and address classification (`gethostbyname`, `filter_var`, lines 32-39) are DNS and PHP-library behaviour. They become the boolean `hostIsPublic`.
- `drupal_flush_all_caches`, the config factory and `time()` (lines 41-55) are I/O. The bag is a map parameter and a map result, and the time is the number `now`.
- Building the URL with `Url::fromRoute` (lines 61-65) is framework routing. The target URL is an opaque string parameter.
- The Razorpay SDK `Api` object and its network calls are not modelled. Listing answers are a sequence of responses, and `create`/`edit` is the action a run returns.
- `str_shuffle`'s randomness cannot be verified. It is a permutation of alphabet positions given as a parameter.
- Telemetry (`triggerValidationInstrumentation`, `newTrackPluginInstrumentation`, `rzpTrackDataLake`, lines 141-142, 150-151, 167-187) only emits analytics, so it is left out. So are the `$_SERVER` page URLs and the `events_selected` property. The merged map it reports remains on the object.
- Messenger and logger calls and the inline HTML notice (lines 36, 69-82, 144, 153, 162-163) only produce messages, so they are left out.
- `AutoWebhookCore.AutoWebhook.AutoEnableWebhook`: an exception thrown by `create` or `edit` itself is not modelled. The outcome names the action issued. In the source such a failure only replaces the return value with messages, after the merge has already happened.
- `AutoWebhookCore.AutoWebhook.AutoEnableWebhook`: it requires that some listing response stops the loop. Against a processor that reported count 10 forever, the source would never terminate.
- PHP's array key order is not modelled: event maps are Dafny maps. Key order changes neither the merge result nor the strict URL match.
- Event flags are booleans. `$evntval == 1` for other JSON types (integers, strings) is not modelled. Webhook ids and URLs are strings, and a missing `url` or `id` field is not modelled.
- Credentials are optional strings. "Loosely null" means absent or "", which is what `== null` gives for strings.

## Findings

| source | as written | input that shows it | evidently intended | confidence | as-written member | corrected member |
|---|---|---|---|---|---|---|
| src/AutoWebhook.php:121 | `in_array($evntkey, $this->supportedWebhookEvents)` compares the event name loosely with the array's values, which are all `true`, so any name other than "" and "0" passes | a webhook at the target URL with events {"payment.authorized": true, "refund.created": false, "order.paid": true}: "order.paid" is merged in as true | only names that are keys of `supportedWebhookEvents` are merged | high (not executed) | `Reconcile.UnsupportedEventMergedAsWritten` | `Reconcile.IntendedMergeStaysSupported` |

The corrected check is the `KeysContain` filter in `Reconcile`. The class keeps
the check exactly as the code has it, so that its runs and their persisted
state match the deployed plugin. `Reconcile.FiltersAgreeOnSupportedEvents`
shows when the two agree, and that is the case for every listing that enables
only supported events.
