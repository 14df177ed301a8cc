/**
 * The Python payment service (services/payment_service.py): turning a
 * Stripe `checkout.session.completed` event into a customer row and, when a
 * size and address came with it, a t-shirt order and a Printful order
 * request; and building that Printful request from a free-text address.
 * The HTTP exchange with Printful and the clock are inputs.
 */
module PaymentService {
  import opened Wrappers
  import opened Text

  // ===================== event payload =====================

  /** A JSON object member as `dict.get` sees it: missing, `null`, or a value. */
  datatype Field<T> = Absent | Null | Value(v: T)

  /** `d.get(k)`: a missing member and `null` both give None. */
  function Get(f: Field<string>): Option<string> {
    match f
    case Value(v) => Some(v)
    case _ => None
  }

  /** A `{"value": ...}` object of a dropdown or text custom field. */
  datatype Entry = Entry(value: Field<string>)

  /** One element of the session's `custom_fields`. */
  datatype CustomField = CustomField(key: Field<string>, dropdown: Field<Entry>, text: Field<Entry>)

  datatype Details = Details(email: Field<string>, name: Field<string>)

  /** The checkout session at `data.object`. */
  datatype Session = Session(customerDetails: Field<Details>, customFields: Field<seq<CustomField>>, subscription: Field<string>)

  /** The webhook body: `type` (None when missing) and `data.object` (None when either key is missing). */
  datatype Event = Event(eventType: Option<string>, session: Option<Session>)

  // ===================== custom fields =====================

  /** The four values the loop collects; None where the source leaves None. */
  datatype Extracted = Extracted(tshirtSize: Option<string>, shippingAddress: Option<string>,
                                 fitnessGoals: Option<string>, experienceLevel: Option<string>)

  const NothingExtracted := Extracted(None, None, None, None)

  /**
   * `field.get(c, {}).get('value')` on the container `c`: Some(value or
   * None), or None when `c` is `null` and the call raises.
   */
  function ContainerValue(c: Field<Entry>): Option<Option<string>> {
    match c
    case Absent => Some(None)
    case Null => None
    case Value(e) => Some(Get(e.value))
  }

  /** The keys the loop recognises, with the container each one reads. */
  predicate ReadsDropdown(f: CustomField) {
    f.key == Value("tshirt_size") || f.key == Value("experience_level")
  }

  predicate ReadsText(f: CustomField) {
    f.key == Value("shipping_address") || f.key == Value("fitness_goals")
  }

  /** What one field reads: None when it raises, else its value (for recognised keys). */
  function FieldRead(f: CustomField): Option<Option<string>> {
    if ReadsDropdown(f) then ContainerValue(f.dropdown)
    else if ReadsText(f) then ContainerValue(f.text)
    else Some(None)
  }

  /** One iteration of the loop over `custom_fields`. */
  function Step(acc: Extracted, f: CustomField): Option<Extracted> {
    var read := FieldRead(f);
    if read.None? then None
    else if f.key == Value("tshirt_size") then Some(acc.(tshirtSize := read.value))
    else if f.key == Value("shipping_address") then Some(acc.(shippingAddress := read.value))
    else if f.key == Value("fitness_goals") then Some(acc.(fitnessGoals := read.value))
    else if f.key == Value("experience_level") then Some(acc.(experienceLevel := read.value))
    else Some(acc)
  }

  /** The loop's result, as a left fold; None when a field raised. */
  function ExtractAll(fields: seq<CustomField>): Option<Extracted> {
    if |fields| == 0 then Some(NothingExtracted)
    else
      match ExtractAll(fields[..|fields| - 1])
      case None => None
      case Some(acc) => Step(acc, fields[|fields| - 1])
  }

  /** The loop of `process_stripe_webhook` over the custom fields. */
  method ExtractCustomFields(fields: seq<CustomField>) returns (r: Option<Extracted>)
    ensures r == ExtractAll(fields)
  {
    var tshirtSize, shippingAddress, fitnessGoals, experienceLevel := None, None, None, None;
    var i := 0;
    while i < |fields|
      invariant 0 <= i <= |fields|
      invariant ExtractAll(fields[..i]) == Some(Extracted(tshirtSize, shippingAddress, fitnessGoals, experienceLevel))
    {
      var field := fields[i];
      assert fields[..i + 1][..i] == fields[..i];
      var read := FieldRead(field);
      if read.None? {
        ExtractAllFailureSticks(fields, i + 1);
        return None;
      }
      if field.key == Value("tshirt_size") {
        tshirtSize := read.value;
      } else if field.key == Value("shipping_address") {
        shippingAddress := read.value;
      } else if field.key == Value("fitness_goals") {
        fitnessGoals := read.value;
      } else if field.key == Value("experience_level") {
        experienceLevel := read.value;
      }
      i := i + 1;
    }
    assert fields[..i] == fields;
    return Some(Extracted(tshirtSize, shippingAddress, fitnessGoals, experienceLevel));
  }

  /** The loop raises exactly when some recognised field has a `null` container. */
  predicate AnyFieldRaises(fields: seq<CustomField>) {
    exists i :: 0 <= i < |fields| && FieldRead(fields[i]).None?
  }

  /** The value of the last field whose key is `key`, or None when there is none. */
  function LastValue(fields: seq<CustomField>, key: string): Option<string>
    requires !AnyFieldRaises(fields)
  {
    if |fields| == 0 then None
    else
      var f := fields[|fields| - 1];
      assert FieldRead(f).Some? by {
        assert fields[|fields| - 1] == f;
      }
      if f.key == Value(key) then FieldRead(f).value
      else
        AnyFieldRaisesSnoc(fields);
        LastValue(fields[..|fields| - 1], key)
  }

  /**
   * The loop fails exactly when a recognised field has a `null` container,
   * and otherwise each value is that of the LAST field with its key: a later
   * field overwrites an earlier one, even with None.
   */
  lemma {:induction false} ExtractAllIsLastValue(fields: seq<CustomField>)
    ensures ExtractAll(fields).None? <==> AnyFieldRaises(fields)
    ensures ExtractAll(fields).Some? ==>
      && ExtractAll(fields).value.tshirtSize == LastValue(fields, "tshirt_size")
      && ExtractAll(fields).value.shippingAddress == LastValue(fields, "shipping_address")
      && ExtractAll(fields).value.fitnessGoals == LastValue(fields, "fitness_goals")
      && ExtractAll(fields).value.experienceLevel == LastValue(fields, "experience_level")
  {
    if |fields| > 0 {
      ExtractAllIsLastValue(fields[..|fields| - 1]);
      AnyFieldRaisesSnoc(fields);
    }
  }

  lemma AnyFieldRaisesSnoc(fields: seq<CustomField>)
    requires |fields| > 0
    ensures AnyFieldRaises(fields) <==>
      AnyFieldRaises(fields[..|fields| - 1]) || FieldRead(fields[|fields| - 1]).None?
  {
    var init := fields[..|fields| - 1];
    assert forall i :: 0 <= i < |init| ==> init[i] == fields[i];
  }

  /** Once a field has raised, the loop's result is failure whatever follows. */
  lemma {:induction false} ExtractAllFailureSticks(fields: seq<CustomField>, i: nat)
    requires i <= |fields| && ExtractAll(fields[..i]).None?
    ensures ExtractAll(fields).None?
    decreases |fields| - i
  {
    if i < |fields| {
      assert fields[..i + 1][..i] == fields[..i];
      ExtractAllFailureSticks(fields, i + 1);
    } else {
      assert fields[..i] == fields;
    }
  }

  // ===================== webhook =====================

  /**
   * Whether each insert of the webhook commits: the customer upsert and
   * the t-shirt order. False stands for an insert that raises (a locked or
   * unavailable database); nothing of that insert is kept.
   */
  datatype StoreOutcome = StoreOutcome(customerSaved: bool, orderSaved: bool)

  /** A `customers` row, keyed by e-mail (`INSERT OR REPLACE`). */
  datatype CustomerRow = CustomerRow(name: string, subscriptionId: Option<string>,
                                     fitnessGoals: Option<string>, experienceLevel: Option<string>)

  /** A `tshirt_orders` row. */
  datatype TshirtOrder = TshirtOrder(customerEmail: string, size: string, shippingAddress: string)

  /** What the webhook writes: nothing (it returns False), or a customer row and possibly a t-shirt order. */
  datatype WebhookPlan = Rejected | Accepted(email: string, customer: CustomerRow, shirt: Option<TshirtOrder>)

  const CompletedCheckout := "checkout.session.completed"

  /**
   * `session.get('customer_details', {}).get('name', 'New Member')`: the
   * default only when the member is missing; `null` gives None.
   */
  function CustomerName(details: Field<Details>): Option<string> {
    match details
    case Value(d) =>
      (match d.name
       case Absent => Some("New Member")
       case Null => None
       case Value(n) => Some(n))
    case _ => Some("New Member")
  }

  function CustomerEmail(details: Field<Details>): Option<string> {
    match details
    case Value(d) => Get(d.email)
    case _ => None
  }

  /**
   * `process_stripe_webhook` as a plan of writes. Every path that raises
   * (a missing `data.object`, a `null` customer_details or custom_fields, a
   * `null` container in a recognised custom field, a `null` name rejected
   * by the NOT NULL `customers.name` column) is caught and returns False
   * before anything is written.
   */
  function WebhookPlanFor(event: Event): WebhookPlan {
    if event.eventType != Some(CompletedCheckout) || event.session.None? then Rejected
    else
      var session := event.session.value;
      if session.customerDetails.Null? || session.customFields.Null? then Rejected
      else
        var fields := if session.customFields.Value? then session.customFields.v else [];
        var extracted := ExtractAll(fields);
        var email, name := CustomerEmail(session.customerDetails), CustomerName(session.customerDetails);
        if extracted.None? || !Truthy(email) || name.None? then Rejected
        else
          var x := extracted.value;
          var customer := CustomerRow(name.value, Get(session.subscription), x.fitnessGoals, x.experienceLevel);
          var shirt := if Truthy(x.tshirtSize) && Truthy(x.shippingAddress)
            then Some(TshirtOrder(email.value, x.tshirtSize.value, x.shippingAddress.value)) else None;
          Accepted(email.value, customer, shirt)
  }

  /**
   * A customer is written exactly for a completed checkout with a non-empty
   * e-mail, a name that is not `null`, and well-formed custom fields; the
   * row is keyed by that e-mail and holds that name, the session's
   * subscription and the last fitness-goals and experience-level values.
   */
  lemma WebhookAcceptsExactly(event: Event)
    ensures WebhookPlanFor(event).Accepted? <==>
      && event.eventType == Some(CompletedCheckout)
      && event.session.Some?
      && !event.session.value.customerDetails.Null?
      && !event.session.value.customFields.Null?
      && (event.session.value.customFields.Value? ==> !AnyFieldRaises(event.session.value.customFields.v))
      && Truthy(CustomerEmail(event.session.value.customerDetails))
      && CustomerName(event.session.value.customerDetails).Some?
    ensures WebhookPlanFor(event).Accepted? ==>
      var session := event.session.value;
      var fs := if session.customFields.Value? then session.customFields.v else [];
      && Some(WebhookPlanFor(event).email) == CustomerEmail(session.customerDetails)
      && !AnyFieldRaises(fs)
      && WebhookPlanFor(event).customer
           == CustomerRow(CustomerName(session.customerDetails).value, Get(session.subscription),
                          LastValue(fs, "fitness_goals"), LastValue(fs, "experience_level"))
  {
    if event.session.Some? && event.session.value.customFields.Value? {
      ExtractAllIsLastValue(event.session.value.customFields.v);
    }
    if event.session.Some? && event.session.value.customFields.Absent? {
      assert !AnyFieldRaises([]);
    }
  }

  /**
   * A t-shirt order is written exactly when the customer is, and the last
   * `tshirt_size` and `shipping_address` fields both hold non-empty text;
   * the order carries those values and the customer's e-mail.
   */
  lemma WebhookShirtExactly(event: Event)
    requires WebhookPlanFor(event).Accepted?
    ensures var plan := WebhookPlanFor(event);
      var fields := event.session.value.customFields;
      var fs := if fields.Value? then fields.v else [];
      !AnyFieldRaises(fs) &&
      (plan.shirt.Some? <==> Truthy(LastValue(fs, "tshirt_size")) && Truthy(LastValue(fs, "shipping_address"))) &&
      (plan.shirt.Some? ==>
         plan.shirt.value == TshirtOrder(plan.email, LastValue(fs, "tshirt_size").value, LastValue(fs, "shipping_address").value))
  {
    var fields := event.session.value.customFields;
    var fs := if fields.Value? then fields.v else [];
    ExtractAllIsLastValue(fs);
  }

  // ===================== Printful order =====================

  datatype CityStateZip = CityStateZip(city: string, state: string, zip: string)

  datatype StateZip = StateZip(state: string, zip: string)

  /** Length of the run of Python whitespace starting at `p`. */
  function SpaceRun(s: string, p: nat): (n: nat)
    requires p <= |s|
    ensures p + n <= |s|
    ensures forall i :: p <= i < p + n ==> IsSpace(Python, s[i])
    ensures p + n == |s| || !IsSpace(Python, s[p + n])
    decreases |s| - p
  {
    if p < |s| && IsSpace(Python, s[p]) then 1 + SpaceRun(s, p + 1) else 0
  }

  /** Every character of `s` from `lo` up to `hi` is Python whitespace. */
  predicate SpacesBetween(s: string, lo: nat, hi: nat) {
    hi <= |s| && forall i :: lo <= i < hi ==> IsSpace(Python, s[i])
  }

  predicate AllUpper(w: string) { forall i :: 0 <= i < |w| ==> IsUpper(w[i]) }

  predicate AllDigits(w: string) { forall i :: 0 <= i < |w| ==> IsDigit(w[i]) }

  /**
   * `\s+([A-Z]{2})\s+(\d{5})` matched at `p` with runs of `a` and `b`
   * whitespace characters: the reading of the pattern, without any search.
   */
  predicate TailSplit(s: string, p: nat, a: nat, b: nat, state: string, zip: string) {
    && a >= 1 && b >= 1 && p + a + 2 + b + 5 <= |s|
    && SpacesBetween(s, p, p + a)
    && s[p + a..p + a + 2] == state && AllUpper(state)
    && SpacesBetween(s, p + a + 2, p + a + 2 + b)
    && s[p + a + 2 + b..p + a + 2 + b + 5] == zip && AllDigits(zip)
  }

  ghost predicate TailPattern(s: string, p: nat, state: string, zip: string) {
    exists a: nat, b: nat :: TailSplit(s, p, a, b, state, zip)
  }

  /** `(.+?),?` ending with the city at `k`, followed by the tail: the groups the pattern allows there. */
  ghost predicate PatternAt(s: string, k: nat, state: string, zip: string) {
    && 1 <= k <= |s|
    && (TailPattern(s, k, state, zip) || (k < |s| && s[k] == ',' && TailPattern(s, k + 1, state, zip)))
  }

  /** The tail as the regex engine runs it: each `\s+` takes the longest run (a shorter one leaves a space where a letter or digit must be). */
  function TailAt(s: string, p: nat): Option<StateZip>
    requires p <= |s|
  {
    var a := SpaceRun(s, p);
    var q := p + a;
    if a == 0 || q + 2 > |s| || !IsUpper(s[q]) || !IsUpper(s[q + 1]) then None
    else
      var b := SpaceRun(s, q + 2);
      var z := q + 2 + b;
      if b == 0 || z + 5 > |s| || !AllDigits(s[z..z + 5]) then None
      else Some(StateZip(s[q..q + 2], s[z..z + 5]))
  }

  /** `,?` tries the comma first, then no comma. */
  function AfterCity(s: string, k: nat): Option<StateZip>
    requires k <= |s|
  {
    if k < |s| && s[k] == ',' && TailAt(s, k + 1).Some? then TailAt(s, k + 1) else TailAt(s, k)
  }

  /** The lazy `(.+?)`: try city lengths k, k + 1, ... and take the first that lets the rest match. */
  function LazyMatchFrom(s: string, k: nat): Option<CityStateZip>
    requires k >= 1
    decreases |s| + 1 - k
  {
    if k > |s| then None
    else
      match AfterCity(s, k)
      case Some(sz) => Some(CityStateZip(s[..k], sz.state, sz.zip))
      case None => LazyMatchFrom(s, k + 1)
  }

  /** `re.match(r'(.+?),?\s+([A-Z]{2})\s+(\d{5})', line)`'s three groups. */
  function MatchCityStateZip(line: string): Option<CityStateZip> {
    LazyMatchFrom(line, 1)
  }

  lemma {:induction false} SpaceRunExact(s: string, p: nat, a: nat)
    requires p + a < |s| && SpacesBetween(s, p, p + a) && !IsSpace(Python, s[p + a])
    ensures SpaceRun(s, p) == a
    decreases a
  {
    if a > 0 {
      SpaceRunExact(s, p + 1, a - 1);
    }
  }

  lemma TailAtSound(s: string, p: nat)
    requires p <= |s| && TailAt(s, p).Some?
    ensures TailPattern(s, p, TailAt(s, p).value.state, TailAt(s, p).value.zip)
  {
    var a := SpaceRun(s, p);
    var q := p + a;
    var b := SpaceRun(s, q + 2);
    var sz := TailAt(s, p).value;
    assert AllUpper(sz.state) by {
      assert sz.state == s[q..q + 2];
      assert sz.state[0] == s[q] && sz.state[1] == s[q + 1];
    }
    assert TailSplit(s, p, a, b, sz.state, sz.zip);
  }

  /** One `\s+` then a group of `n` characters at `p`, read by the engine: the run is exactly `a` long. */
  lemma RunThenGroup(s: string, p: nat, a: nat, n: nat, group: string)
    requires a >= 1 && n >= 1 && p + a + n <= |s| && SpacesBetween(s, p, p + a)
    requires s[p + a..p + a + n] == group && !IsSpace(Python, group[0])
    ensures SpaceRun(s, p) == a
  {
    assert group[0] == s[p + a];
    SpaceRunExact(s, p, a);
  }

  lemma TailAtComplete(s: string, p: nat, a: nat, b: nat, state: string, zip: string)
    requires TailSplit(s, p, a, b, state, zip)
    ensures TailAt(s, p) == Some(StateZip(state, zip))
  {
    var q := p + a;
    StateGroup(s, q, state);
    RunThenGroup(s, p, a, 2, state);
    assert IsDigit(zip[0]);
    RunThenGroup(s, q + 2, b, 5, zip);
    TailAtRuns(s, p, a, b);
  }

  /** `TailAt` once both runs and both groups are known. */
  lemma TailAtRuns(s: string, p: nat, a: nat, b: nat)
    requires a >= 1 && b >= 1 && p + a + 2 + b + 5 <= |s|
    requires SpaceRun(s, p) == a && IsUpper(s[p + a]) && IsUpper(s[p + a + 1])
    requires SpaceRun(s, p + a + 2) == b && AllDigits(s[p + a + 2 + b..p + a + 2 + b + 5])
    ensures TailAt(s, p) == Some(StateZip(s[p + a..p + a + 2], s[p + a + 2 + b..p + a + 2 + b + 5]))
  {
  }

  /** Two capitals at `q` read back as the state group. */
  lemma StateGroup(s: string, q: nat, state: string)
    requires q + 2 <= |s| && s[q..q + 2] == state && AllUpper(state)
    ensures IsUpper(s[q]) && IsUpper(s[q + 1])
  {
    assert state[0] == s[q] && state[1] == s[q + 1];
  }

  /** The deterministic tail finds exactly the groups the pattern allows. */
  lemma TailAtExact(s: string, p: nat, state: string, zip: string)
    requires p <= |s|
    ensures TailAt(s, p) == Some(StateZip(state, zip)) <==> TailPattern(s, p, state, zip)
  {
    if TailAt(s, p) == Some(StateZip(state, zip)) {
      TailAtSound(s, p);
    }
    if TailPattern(s, p, state, zip) {
      var a, b :| TailSplit(s, p, a, b, state, zip);
      TailAtComplete(s, p, a, b, state, zip);
    }
  }

  lemma AfterCityExact(s: string, k: nat, state: string, zip: string)
    requires 1 <= k <= |s|
    ensures AfterCity(s, k) == Some(StateZip(state, zip)) <==> PatternAt(s, k, state, zip)
  {
    TailAtExact(s, k, state, zip);
    if k < |s| {
      TailAtExact(s, k + 1, state, zip);
      if k < |s| && s[k] == ',' && TailAt(s, k + 1).Some? {
        var sz := TailAt(s, k + 1).value;
        TailAtExact(s, k + 1, sz.state, sz.zip);
      }
      if TailPattern(s, k, state, zip) {
        var a, b :| TailSplit(s, k, a, b, state, zip);
        assert IsSpace(Python, s[k]);
      }
    }
  }

  /** What the search from `k` returns: a prefix city of length at least `k` after which the tail matches. */
  lemma {:induction false} LazyMatchFound(s: string, k: nat)
    requires k >= 1 && LazyMatchFrom(s, k).Some?
    ensures var r := LazyMatchFrom(s, k).value;
      && k <= |r.city| <= |s| && r.city == s[..|r.city|]
      && AfterCity(s, |r.city|) == Some(StateZip(r.state, r.zip))
    decreases |s| + 1 - k
  {
    if AfterCity(s, k).None? {
      LazyMatchFound(s, k + 1);
    }
  }

  /** No city from `k` on that is shorter than the one found (or any, when none is found) lets the pattern match. */
  lemma {:induction false} LazyMatchMisses(s: string, k: nat, j: nat, state: string, zip: string)
    requires 1 <= k <= j
    requires LazyMatchFrom(s, k).None? || j < |LazyMatchFrom(s, k).value.city|
    ensures !PatternAt(s, j, state, zip)
    decreases j - k
  {
    if j <= |s| {
      if j == k {
        AfterCityExact(s, k, state, zip);
      } else {
        LazyMatchMisses(s, k + 1, j, state, zip);
      }
    }
  }

  /**
   * The city/state/zip match is the one `re.match` finds: the groups fit the
   * pattern, the city is the shortest non-empty prefix that lets the rest
   * match, and when any split matches, one is found.
   */
  lemma CityStateZipIsLazyMatch(line: string)
    ensures var r := MatchCityStateZip(line);
      && (r.Some? ==>
            && 1 <= |r.value.city| <= |line| && r.value.city == line[..|r.value.city|]
            && PatternAt(line, |r.value.city|, r.value.state, r.value.zip)
            && |r.value.state| == 2 && AllUpper(r.value.state)
            && |r.value.zip| == 5 && AllDigits(r.value.zip)
            && forall j: nat, st: string, z: string :: j < |r.value.city| ==> !PatternAt(line, j, st, z))
      && (r.None? <==> forall j: nat, st: string, z: string :: !PatternAt(line, j, st, z))
  {
    var r := MatchCityStateZip(line);
    forall j: nat, st: string, z: string | r.None? || j < |r.value.city|
      ensures !PatternAt(line, j, st, z)
    {
      if j >= 1 {
        LazyMatchMisses(line, 1, j, st, z);
      }
    }
    if r.Some? {
      LazyMatchFound(line, 1);
      var k := |r.value.city|;
      AfterCityExact(line, k, r.value.state, r.value.zip);
      if TailPattern(line, k, r.value.state, r.value.zip) {
        var a, b :| TailSplit(line, k, a, b, r.value.state, r.value.zip);
      } else {
        var a, b :| TailSplit(line, k + 1, a, b, r.value.state, r.value.zip);
      }
    }
  }

  /** `[line.strip() for line in shipping_address.split('\n') if line.strip()]`. */
  function AddressLines(address: string): seq<string> {
    TrimmedNonEmpty(Python, Split(address, '\n'))
  }

  /**
   * Every address line is a non-empty, stripped stretch of one line of the
   * input: it occurs in the input, holds no newline, and has no whitespace
   * at either end.
   */
  lemma AddressLinesAreStrippedInputLines(address: string, k: nat)
    requires k < |AddressLines(address)|
    ensures var line := AddressLines(address)[k];
      && Stripped(Python, line) && Contains(address, line) && '\n' !in line
  {
    SplitTrimmedPieces(Python, address, '\n', k);
  }

  const DefaultCity := "Los Angeles"
  const DefaultState := "CA"
  const DefaultZip := "90210"

  datatype ParsedAddress = ParsedAddress(address1: string, city: string, stateCode: string, zip: string)

  /** City, state and zip from the last address line, or the defaults when it does not match. */
  function CityStateZipOf(lastLine: string): (r: CityStateZip)
    ensures |r.state| == 2 && AllUpper(r.state) && |r.zip| == 5 && AllDigits(r.zip)
    ensures |r.city| > 0
  {
    var m := MatchCityStateZip(lastLine);
    if m.Some? then
      CityStateZipIsLazyMatch(lastLine);
      m.value
    else
      assert AllDigits(DefaultZip) by {
        assert forall i :: 0 <= i < 5 ==> IsDigit(DefaultZip[i]);
      }
      CityStateZip(DefaultCity, DefaultState, DefaultZip)
  }

  /** The address parsing of `create_printful_order`. */
  function ParseAddress(shippingAddress: string): (r: ParsedAddress)
    ensures |r.stateCode| == 2 && AllUpper(r.stateCode) && |r.zip| == 5 && AllDigits(r.zip) && |r.city| > 0
  {
    var lines := AddressLines(shippingAddress);
    var address1 := if |lines| > 0 then lines[0] else shippingAddress;
    var place := PlaceOf(lines);
    ParsedAddress(address1, place.city, place.state, place.zip)
  }

  /** City, state and zip from the last of at least two lines, else the defaults. */
  function PlaceOf(lines: seq<string>): (r: CityStateZip)
    ensures |r.state| == 2 && AllUpper(r.state) && |r.zip| == 5 && AllDigits(r.zip) && |r.city| > 0
  {
    if |lines| >= 2 then CityStateZipOf(lines[|lines| - 1])
    else
      assert AllDigits(DefaultZip) by {
        assert forall i :: 0 <= i < 5 ==> IsDigit(DefaultZip[i]);
      }
      CityStateZip(DefaultCity, DefaultState, DefaultZip)
  }

  /**
   * Whatever the text, the parsed state is two capital letters and the zip
   * five digits; the defaults are used exactly when there are fewer than two
   * non-blank lines or the last one does not match; a matched city is a
   * non-empty prefix of the last line.
   */
  lemma ParsedAddressWellFormed(shippingAddress: string)
    ensures var p := ParseAddress(shippingAddress);
      var lines := AddressLines(shippingAddress);
      && |p.stateCode| == 2 && AllUpper(p.stateCode)
      && |p.zip| == 5 && AllDigits(p.zip)
      && |p.city| > 0
      && (|lines| > 0 ==> p.address1 == lines[0])
      && (|lines| == 0 ==> p.address1 == shippingAddress)
      && ((|lines| < 2 || MatchCityStateZip(lines[|lines| - 1]).None?) ==>
            p.city == DefaultCity && p.stateCode == DefaultState && p.zip == DefaultZip)
      && (|lines| >= 2 && MatchCityStateZip(lines[|lines| - 1]).Some? ==>
            |p.city| <= |lines[|lines| - 1]| && p.city == lines[|lines| - 1][..|p.city|])
  {
    var lines := AddressLines(shippingAddress);
    if |lines| >= 2 {
      CityStateZipIsLazyMatch(lines[|lines| - 1]);
    }
  }

  /** `size_variants`. */
  const SizeVariants: map<string, int> := map["S" := 4011, "M" := 4012, "L" := 4013, "XL" := 4014, "XXL" := 4015]

  /** `size_variants.get(size, 4012)`: unknown sizes fall back to M. */
  function VariantId(size: string): (v: int)
    ensures 4011 <= v <= 4015
    ensures size !in SizeVariants ==> v == SizeVariants["M"]
  {
    if size in SizeVariants then SizeVariants[size] else 4012
  }

  /** The five sizes get five different variants, in order of size. */
  lemma VariantIdsOrdered()
    ensures VariantId("S") < VariantId("M") < VariantId("L") < VariantId("XL") < VariantId("XXL")
  {
  }

  const ShirtImageUrl := "https://trainerai-groqapp-willpowerfitness.replit.app/attached_assets/WillPowerFitness%20Profile%20Image_1751491136331.png"

  datatype Recipient = Recipient(name: string, address1: string, city: string, stateCode: string, countryCode: string, zip: string)

  datatype PrintFile = PrintFile(fileType: string, url: string)

  datatype OrderItem = OrderItem(variantId: int, quantity: int, files: seq<PrintFile>)

  /** The JSON body posted to Printful. */
  datatype OrderPayload = OrderPayload(recipient: Recipient, items: seq<OrderItem>, externalId: string, shipping: string)

  /** `order_data`; `timestamp` is the UTC time formatted as `%Y%m%d_%H%M%S`. */
  function OrderPayloadFor(email: string, size: string, shippingAddress: string, name: string, timestamp: string): OrderPayload {
    var a := ParseAddress(shippingAddress);
    OrderPayload(
      Recipient(name, a.address1, a.city, a.stateCode, "US", a.zip),
      [OrderItem(VariantId(size), 1, [PrintFile("front", ShirtImageUrl)])],
      "willpower_" + email + "_" + timestamp,
      "STANDARD")
  }

  /**
   * Every Printful order is one US shipment of a single shirt of a known
   * variant, addressed to the named customer, with an external id naming
   * the customer's e-mail after the "willpower_" prefix.
   */
  lemma OrderPayloadShape(email: string, size: string, shippingAddress: string, name: string, timestamp: string)
    ensures var o := OrderPayloadFor(email, size, shippingAddress, name, timestamp);
      && o.recipient.name == name && o.recipient.countryCode == "US"
      && |o.recipient.stateCode| == 2 && |o.recipient.zip| == 5
      && |o.items| == 1 && o.items[0].quantity == 1 && 4011 <= o.items[0].variantId <= 4015
      && o.shipping == "STANDARD"
      && OccursAt(o.externalId, 0, "willpower_") && OccursAt(o.externalId, 10, email)
  {
    var id := "willpower_" + email + "_" + timestamp;
    assert id[10..10 + |email|] == email;
    assert id[..10] == "willpower_";
  }

  /** What the Printful call produced: a status and `result.id` (None when absent), or an exception. */
  datatype PrintfulResponse = PrintfulReply(status: int, orderId: Option<int>) | PrintfulRaised

  /** The order id `create_printful_order` returns for a response. */
  function PrintfulOrderId(response: PrintfulResponse): (id: Option<int>)
    ensures id.Some? ==> response.PrintfulReply? && (response.status == 200 || response.status == 201)
    ensures response.PrintfulReply? && (response.status == 200 || response.status == 201) ==> id == response.orderId
  {
    match response
    case PrintfulReply(status, orderId) => if status == 200 || status == 201 then orderId else None
    case PrintfulRaised => None
  }

  /** The service: the Printful key, the two tables the webhook writes, and the requests sent to Printful. */
  class PaymentService {
    var printfulKey: Option<string>
    var customers: map<string, CustomerRow>
    var tshirtOrders: seq<TshirtOrder>
    var printfulRequests: seq<OrderPayload>

    constructor(printfulKey: Option<string>, customers: map<string, CustomerRow>, tshirtOrders: seq<TshirtOrder>)
      ensures this.printfulKey == printfulKey && this.customers == customers && this.tshirtOrders == tshirtOrders
      ensures printfulRequests == []
    {
      this.printfulKey := printfulKey;
      this.customers := customers;
      this.tshirtOrders := tshirtOrders;
      printfulRequests := [];
    }

    /**
     * `create_printful_order`: without a key nothing is sent and None is
     * returned; otherwise the order is posted and the id of a 200 or 201
     * reply is returned.
     */
    method CreatePrintfulOrder(email: string, size: string, shippingAddress: string, name: string,
                               timestamp: string, response: PrintfulResponse)
      returns (orderId: Option<int>)
      modifies this
      ensures printfulKey == old(printfulKey) && customers == old(customers) && tshirtOrders == old(tshirtOrders)
      ensures !Truthy(printfulKey) ==> orderId == None && printfulRequests == old(printfulRequests)
      ensures Truthy(printfulKey) ==>
        && orderId == PrintfulOrderId(response)
        && printfulRequests == old(printfulRequests) + [OrderPayloadFor(email, size, shippingAddress, name, timestamp)]
    {
      if !Truthy(printfulKey) {
        return None;
      }
      var orderData := OrderPayloadFor(email, size, shippingAddress, name, timestamp);
      printfulRequests := printfulRequests + [orderData];
      match response
      case PrintfulReply(status, id) =>
        if status == 200 || status == 201 {
          orderId := id;
        } else {
          orderId := None;
        }
      case PrintfulRaised =>
        orderId := None;
    }

    /**
     * `process_stripe_webhook`: returns whether the event was fully
     * processed; `timestamp` and `printful` are the clock reading and the
     * Printful outcome for the order it may place, and `store` says which of
     * its two inserts commit. A failing insert raises into the handler,
     * which returns False; a customer row committed before a failing
     * t-shirt insert stays.
     */
    method ProcessStripeWebhook(event: Event, timestamp: string, printful: PrintfulResponse, store: StoreOutcome)
      returns (ok: bool)
      modifies this
      ensures printfulKey == old(printfulKey)
      ensures var plan := WebhookPlanFor(event);
        ok <==> plan.Accepted? && store.customerSaved && (plan.shirt.Some? ==> store.orderSaved)
      ensures WebhookPlanFor(event).Rejected? || !store.customerSaved ==>
        customers == old(customers) && tshirtOrders == old(tshirtOrders) && printfulRequests == old(printfulRequests)
      ensures WebhookPlanFor(event).Accepted? && store.customerSaved ==>
        var plan := WebhookPlanFor(event);
        && customers == old(customers)[plan.email := plan.customer]
        && (plan.shirt.None? || !store.orderSaved ==> tshirtOrders == old(tshirtOrders) && printfulRequests == old(printfulRequests))
        && (plan.shirt.Some? && store.orderSaved ==> tshirtOrders == old(tshirtOrders) + [plan.shirt.value])
        && (plan.shirt.Some? && store.orderSaved && !Truthy(printfulKey) ==> printfulRequests == old(printfulRequests))
        && (plan.shirt.Some? && store.orderSaved && Truthy(printfulKey) ==>
              printfulRequests == old(printfulRequests) +
                [OrderPayloadFor(plan.email, plan.shirt.value.size, plan.shirt.value.shippingAddress, plan.customer.name, timestamp)])
    {
      if event.eventType != Some(CompletedCheckout) || event.session.None? {
        return false;
      }
      var session := event.session.value;
      if session.customerDetails.Null? || session.customFields.Null? {
        return false;
      }
      var customerEmail := CustomerEmail(session.customerDetails);
      var customerName := CustomerName(session.customerDetails);
      var fields := if session.customFields.Value? then session.customFields.v else [];
      var extracted := ExtractCustomFields(fields);
      if extracted.None? {
        return false;
      }
      var x := extracted.value;
      if !Truthy(customerEmail) {
        return false;
      }
      if customerName.None? || !store.customerSaved {
        return false;
      }
      var email, name := customerEmail.value, customerName.value;
      customers := customers[email := CustomerRow(name, Get(session.subscription), x.fitnessGoals, x.experienceLevel)];
      if Truthy(x.tshirtSize) && Truthy(x.shippingAddress) {
        if !store.orderSaved {
          return false;
        }
        tshirtOrders := tshirtOrders + [TshirtOrder(email, x.tshirtSize.value, x.shippingAddress.value)];
        var _ := CreatePrintfulOrder(email, x.tshirtSize.value, x.shippingAddress.value, name, timestamp, printful);
      }
      return true;
    }
  }
}
