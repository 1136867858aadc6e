/**
 * The values the auto-webhook logic of the Razorpay Drupal Commerce plugin
 * works with: config flags, webhook records as the processor lists them,
 * listing responses, the request body, and the outcome of one run.
 */
module WebhookTypes {

  datatype Option<+T> = None | Some(value: T)

  /** A value stored in the `razorpay_flags` config bag: PHP keeps strings and integers there. */
  datatype FlagValue = Str(s: string) | Int(i: int)

  /** One entry of a webhook's `events` array: event name => enabled flag, in listing order. */
  datatype EventFlag = EventFlag(name: string, enabled: bool)

  /** A webhook subscription as the processor's `webhook->all` lists it. */
  datatype WebhookItem = WebhookItem(id: string, url: string, events: seq<EventFlag>)

  /** The body of one listing answer: the `count` the processor reports and the `items` it returns. */
  datatype Page = Page(count: int, items: seq<WebhookItem>)

  /** What one `webhook->all` call yields: a page, or an exception carrying a message. */
  datatype Response = Listed(page: Page) | Failed(message: string)

  /** The `$options` array passed to `webhook->all`. */
  datatype ListOptions = ListOptions(count: int, skip: int)

  /** The `$requestBody` array sent to `create`/`edit`. */
  datatype RequestBody = RequestBody(url: string, active: bool, events: map<string, bool>, secret: FlagValue)

  /** The single remote write a run issues. */
  datatype Action = Edit(body: RequestBody, id: string) | Create(body: RequestBody)

  /** How one run of `autoEnableWebhook` ends. */
  datatype Outcome =
    | LocalhostRejected          // the host resolves to a private/reserved address
    | MissingCredentials         // key id or key secret is loosely null
    | RemoteError(message: string)  // a listing call threw; caught by the outer catch
    | Submitted(action: Action)  // exactly one of edit/create was issued
}
