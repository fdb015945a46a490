/**
 * The payment handlers: Paynow initiation, the Paynow result webhook and
 * the PayPal capture. SHA-512 (as a lower-case hex digest), URL unquoting,
 * str() of a Decimal and the provider replies are parameters.
 */
module PaymentViews {
  import opened Basics
  import opened Text
  import opened OrderModels
  import opened Store
  import PaymentModels

  // ---------------------------------------------------------------------
  // The hash

  /** generate_hash: the upper-cased hex SHA-512 digest of the values followed by the key. */
  function GenerateHash(values: string, key: string, sha512: string -> string): (r: string)
    ensures |r| == |sha512(values + key)| && HasNoLowerAscii(r)
    ensures forall i :: 0 <= i < |r| ==> r[i] == UpperChar(sha512(values + key)[i])
  {
    UpperIsUpper(sha512(values + key));
    Upper(sha512(values + key))
  }

  /** Two value strings with the same digest get the same hash; upper-casing it again changes nothing. */
  lemma GenerateHashStable(values: string, key: string, sha512: string -> string)
    ensures Upper(GenerateHash(values, key, sha512)) == GenerateHash(values, key, sha512)
  {
    UpperIsUpper(sha512(values + key));
  }

  /** The concatenation of the values of some (key, value) pairs, in order. */
  function Values(fields: seq<(string, string)>): string
  {
    if fields == [] then "" else Values(fields[..|fields| - 1]) + fields[|fields| - 1].1
  }

  /** A dictionary built from pairs in order: a later key overwrites an earlier one. */
  function ToDict(pairs: seq<(string, string)>): (d: map<string, string>)
    ensures forall k :: k in d <==> exists i :: 0 <= i < |pairs| && pairs[i].0 == k
  {
    if pairs == [] then map[]
    else
      var init := pairs[..|pairs| - 1];
      var rest := ToDict(init);
      assert forall i :: 0 <= i < |init| ==> init[i] == pairs[i];
      rest[pairs[|pairs| - 1].0 := pairs[|pairs| - 1].1]
  }

  /** The value of a key is the one of its last pair. */
  lemma {:induction false} ToDictLastWins(pairs: seq<(string, string)>, i: nat)
    requires i < |pairs| && forall j :: i < j < |pairs| ==> pairs[j].0 != pairs[i].0
    ensures pairs[i].0 in ToDict(pairs) && ToDict(pairs)[pairs[i].0] == pairs[i].1
    decreases |pairs|
  {
    if i < |pairs| - 1 {
      var init := pairs[..|pairs| - 1];
      ToDictLastWins(init, i);
    }
  }

  // ---------------------------------------------------------------------
  // Parsing form-encoded text

  /** Every `&`-separated item carries an `=`. */
  predicate AllHaveEquals(items: seq<string>)
  {
    forall i :: 0 <= i < |items| ==> '=' in items[i]
  }

  /** item.split('=', 1) for every item. */
  function PairsOnce(items: seq<string>): (r: seq<(string, string)>)
    requires AllHaveEquals(items)
    ensures |r| == |items|
    ensures forall i :: 0 <= i < |items| ==> SplitOnce(items[i], '=') == Some(r[i])
  {
    seq(|items|, i requires 0 <= i < |items| => SplitOnce(items[i], '=').value)
  }

  /**
   * The webhook's comprehension: the key is the piece before the first `=`
   * and the value the unquoted piece between the first and the second.
   */
  function WebhookPairs(items: seq<string>, unquote: string -> string): (r: seq<(string, string)>)
    requires AllHaveEquals(items)
    ensures |r| == |items|
    ensures forall i :: 0 <= i < |items| ==> (|Split(items[i], '=')| >= 2 &&
      r[i] == (Split(items[i], '=')[0], unquote(Split(items[i], '=')[1])))
  {
    forall i | 0 <= i < |items|
      ensures |Split(items[i], '=')| >= 2
    {
      SplitOnceAgrees(items[i], '=');
    }
    seq(|items|, i requires 0 <= i < |items| => (Split(items[i], '=')[0], unquote(Split(items[i], '=')[1])))
  }

  /**
   * The two parsers read the same key; the webhook's value is the first
   * `=`-piece of the full value the hash is computed over.
   */
  lemma WebhookPairsAgree(items: seq<string>, unquote: string -> string, i: nat)
    requires AllHaveEquals(items) && i < |items|
    ensures WebhookPairs(items, unquote)[i].0 == PairsOnce(items)[i].0
    ensures WebhookPairs(items, unquote)[i].1 == unquote(Split(PairsOnce(items)[i].1, '=')[0])
  {
    SplitOnceAgrees(items[i], '=');
  }

  /**
   * The string the webhook's hash is checked against: the unquoted full
   * values, in body order, of every item whose key, lower-cased, is not
   * "hash".
   */
  function HashInput(pairs: seq<(string, string)>, unquote: string -> string): (r: string)
    ensures (forall i :: 0 <= i < |pairs| ==> Lower(pairs[i].0) == "hash") ==> r == ""
  {
    if pairs == [] then ""
    else
      var last := pairs[|pairs| - 1];
      HashInput(pairs[..|pairs| - 1], unquote) + (if Lower(last.0) != "hash" then unquote(last.1) else "")
  }

  /** The loop that builds string_to_hash. */
  method BuildHashInput(pairs: seq<(string, string)>, unquote: string -> string) returns (s: string)
    ensures s == HashInput(pairs, unquote)
  {
    s := "";
    var i := 0;
    while i < |pairs|
      invariant 0 <= i <= |pairs|
      invariant s == HashInput(pairs[..i], unquote)
    {
      if Lower(pairs[i].0) != "hash" {
        s := s + unquote(pairs[i].1);
      }
      assert pairs[..i + 1][..i] == pairs[..i];
      i := i + 1;
    }
    assert pairs[..i] == pairs;
  }

  /** Fields with no hash key contribute their unquoted values, in order. */
  lemma {:induction false} HashInputOfFields(fields: seq<(string, string)>, unquote: string -> string)
    requires forall i :: 0 <= i < |fields| ==> Lower(fields[i].0) != "hash"
    ensures HashInput(fields, unquote) == Values(seq(|fields|, i requires 0 <= i < |fields| => (fields[i].0, unquote(fields[i].1))))
    decreases |fields|
  {
    if fields != [] {
      var init := fields[..|fields| - 1];
      HashInputOfFields(init, unquote);
      var un := seq(|fields|, i requires 0 <= i < |fields| => (fields[i].0, unquote(fields[i].1)));
      assert un[..|un| - 1] == seq(|init|, i requires 0 <= i < |init| => (init[i].0, unquote(init[i].1)));
    }
  }

  /** A hash item adds nothing to the hash input. */
  lemma HashInputSkipsHash(pairs: seq<(string, string)>, h: (string, string), unquote: string -> string)
    requires Lower(h.0) == "hash"
    ensures HashInput(pairs + [h], unquote) == HashInput(pairs, unquote)
  {
    assert (pairs + [h])[..|pairs|] == pairs;
  }

  // ---------------------------------------------------------------------
  // The status update after an authentic webhook

  /** What the status branch does: raise (nothing is saved), or the payment status and order to save. */
  datatype Transition = Crash | Apply(payment: PaymentModels.PaymentStatus, order: Order)

  /**
   * The status branch as written. Line 185 is one chained assignment whose
   * second target names an attribute that does not exist, so "cancelled"
   * raises before anything is saved; a payment without an order raises in
   * every branch.
   */
  function StatusTransitionAsWritten(status: string, order: Option<Order>): (t: Transition)
    ensures status == "cancelled" ==> t == Crash
  {
    if order.None? then Crash
    else if status == "paid" then Apply(PaymentModels.Paid, order.value.(paymentStatus := true, status := Processing))
    else if status == "cancelled" then Crash
    else Apply(PaymentModels.Failed, order.value.(paymentStatus := false))
  }

  /**
   * The status branch as intended: "paid" pays the order and moves it to
   * processing, "cancelled" cancels both, anything else fails the payment
   * and marks the order unpaid, leaving its status.
   */
  function StatusTransition(status: string, order: Option<Order>): (t: Transition)
    ensures order.None? <==> t == Crash
    ensures t.Apply? ==> t.order.(paymentStatus := order.value.paymentStatus, status := order.value.status) == order.value
    ensures t.Apply? ==> (t.payment == PaymentModels.Paid <==> t.order.paymentStatus)
    ensures t.Apply? && status == "paid" ==> t.order.status == Processing
    ensures t.Apply? && status == "cancelled" ==> t.order.status == Cancelled && t.payment == PaymentModels.Cancelled
    ensures t.Apply? && status != "paid" && status != "cancelled" ==> t.order.status == order.value.status && t.payment == PaymentModels.Failed
  {
    if order.None? then Crash
    else if status == "paid" then Apply(PaymentModels.Paid, order.value.(paymentStatus := true, status := Processing))
    else if status == "cancelled" then Apply(PaymentModels.Cancelled, order.value.(paymentStatus := false, status := Cancelled))
    else Apply(PaymentModels.Failed, order.value.(paymentStatus := false))
  }

  /** The two agree on every status but "cancelled", where the code as written saves nothing. */
  lemma StatusTransitionDiffers(status: string, o: Order)
    ensures status != "cancelled" ==> StatusTransitionAsWritten(status, Some(o)) == StatusTransition(status, Some(o))
    ensures StatusTransitionAsWritten("cancelled", Some(o)) == Crash
    ensures StatusTransition("cancelled", Some(o)) == Apply(PaymentModels.Cancelled, o.(paymentStatus := false, status := Cancelled))
  {
  }

  /** Applying a status again to the order it produced gives that order back. */
  lemma StatusTransitionIdempotent(status: string, o: Order)
    ensures var t := StatusTransition(status, Some(o));
      t.Apply? && StatusTransition(status, Some(t.order)) == t
  {
  }

  // ---------------------------------------------------------------------
  // The webhook

  /** The webhook's dictionary of a well-formed body; a later key overwrites an earlier one. */
  function WebhookData(items: seq<string>, unquote: string -> string): map<string, string>
    requires AllHaveEquals(items)
  {
    ToDict(WebhookPairs(items, unquote))
  }

  /**
   * What the webhook reads from a body before it looks at the tables: either
   * an item without `=` (the comprehension raises), or the reference, whether
   * the hash matches the one computed over the other values, and the
   * lower-cased status.
   */
  datatype Notice = Malformed | Notice(reference: Option<string>, authentic: bool, status: string)

  function ReadNotice(body: string, key: string, sha512: string -> string, unquote: string -> string): (n: Notice)
    ensures n.Malformed? <==> !AllHaveEquals(Split(body, '&'))
    ensures n.Notice? ==> (var data := WebhookData(Split(body, '&'), unquote);
      (n.reference.Some? <==> "reference" in data) &&
      (n.reference.Some? ==> n.reference.value == data["reference"]) &&
      (n.authentic <==>
        ("hash" in data && data["hash"] == GenerateHash(HashInput(PairsOnce(Split(body, '&')), unquote), key, sha512))) &&
      n.status == Lower(if "status" in data then data["status"] else ""))
  {
    var items := Split(body, '&');
    if !AllHaveEquals(items) then Malformed
    else
      var data := WebhookData(items, unquote);
      var expected := GenerateHash(HashInput(PairsOnce(items), unquote), key, sha512);
      Notice(if "reference" in data then Some(data["reference"]) else None,
             "hash" in data && data["hash"] == expected,
             Lower(if "status" in data then data["status"] else ""))
  }

  /** The `key=value` items of a form-encoded body. */
  function Items(fields: seq<(string, string)>): (r: seq<string>)
    ensures |r| == |fields|
  {
    seq(|fields|, i requires 0 <= i < |fields| => fields[i].0 + "=" + fields[i].1)
  }

  /** A form-encoded body: the items joined by `&`. */
  function Encode(fields: seq<(string, string)>): string
  {
    Join(Items(fields), "&")
  }

  /** Text that needs no escaping in a form-encoded body. */
  predicate Plain(s: string)
  {
    '&' !in s && '=' !in s
  }

  lemma PlainHashKey()
    ensures Plain("hash")
  {
    assert "hash" == ['h', 'a', 's', 'h'];
  }

  lemma LowerHash()
    ensures Lower("hash") == "hash"
  {
    assert Lower("hash")[0] == 'h' && Lower("hash")[1] == 'a' && Lower("hash")[2] == 's' && Lower("hash")[3] == 'h';
  }

  /** Splitting an encoded body of plain fields on `&` gives its items back. */
  lemma EncodeSplits(all: seq<(string, string)>)
    requires |all| >= 1 && forall i :: 0 <= i < |all| ==> Plain(all[i].0) && Plain(all[i].1)
    ensures Split(Encode(all), '&') == Items(all)
  {
    SplitOfJoin(Items(all), '&');
  }

  /** Each item of plain fields parses back to its pair, under both parsers. */
  lemma ItemsParse(all: seq<(string, string)>, unquote: string -> string)
    requires forall i :: 0 <= i < |all| ==> Plain(all[i].0) && Plain(all[i].1)
    ensures AllHaveEquals(Items(all))
    ensures PairsOnce(Items(all)) == all
    ensures forall i :: 0 <= i < |all| ==> WebhookPairs(Items(all), unquote)[i] == (all[i].0, unquote(all[i].1))
  {
    var words := Items(all);
    forall i | 0 <= i < |all|
      ensures '=' in words[i] && SplitOnce(words[i], '=') == Some(all[i])
      ensures |Split(words[i], '=')| >= 2 && Split(words[i], '=')[0] == all[i].0 && Split(words[i], '=')[1] == all[i].1
    {
      assert words[i][|all[i].0|] == '=';
      SplitOnceAfter(all[i].0, all[i].1, '=');
      SplitOnceAgrees(words[i], '=');
      SplitNoSeparator(all[i].1, '=');
    }
    assert PairsOnce(words) == all;
  }

  /** In a body whose last item is `hash=h`, the webhook reads h as the received hash. */
  lemma SignedHashEntry(all: seq<(string, string)>, unquote: string -> string)
    requires |all| >= 1 && forall i :: 0 <= i < |all| ==> Plain(all[i].0) && Plain(all[i].1)
    requires all[|all| - 1].0 == "hash" && unquote(all[|all| - 1].1) == all[|all| - 1].1
    ensures AllHaveEquals(Items(all))
    ensures "hash" in WebhookData(Items(all), unquote) && WebhookData(Items(all), unquote)["hash"] == all[|all| - 1].1
  {
    ItemsParse(all, unquote);
    ToDictLastWins(WebhookPairs(Items(all), unquote), |all| - 1);
  }

  /** Followed by a hash item, fields with no hash key give their values as the hash input. */
  lemma SignedHashInput(fields: seq<(string, string)>, h: string, unquote: string -> string)
    requires forall i :: 0 <= i < |fields| ==> Lower(fields[i].0) != "hash"
    requires forall i :: 0 <= i < |fields| ==> unquote(fields[i].1) == fields[i].1
    ensures HashInput(fields + [("hash", h)], unquote) == Values(fields)
  {
    LowerHash();
    HashInputSkipsHash(fields, ("hash", h), unquote);
    HashInputOfFields(fields, unquote);
    UnquotedFields(fields, unquote);
  }

  lemma UnquotedFields(fields: seq<(string, string)>, unquote: string -> string)
    requires forall i :: 0 <= i < |fields| ==> unquote(fields[i].1) == fields[i].1
    ensures seq(|fields|, i requires 0 <= i < |fields| => (fields[i].0, unquote(fields[i].1))) == fields
  {
  }

  /**
   * Authenticity round trip: a body made of plain fields followed by
   * `hash=` their hash under the key reads as authentic, provided unquoting
   * leaves the values and the hash as they are.
   */
  lemma SignedBodyIsAuthentic(fields: seq<(string, string)>, key: string, sha512: string -> string,
                              unquote: string -> string, body: string)
    requires forall i :: 0 <= i < |fields| ==> Plain(fields[i].0) && Plain(fields[i].1) && Lower(fields[i].0) != "hash"
    requires forall i :: 0 <= i < |fields| ==> unquote(fields[i].1) == fields[i].1
    requires Plain(GenerateHash(Values(fields), key, sha512))
    requires unquote(GenerateHash(Values(fields), key, sha512)) == GenerateHash(Values(fields), key, sha512)
    requires body == Encode(fields + [("hash", GenerateHash(Values(fields), key, sha512))])
    ensures ReadNotice(body, key, sha512, unquote).Notice? && ReadNotice(body, key, sha512, unquote).authentic
  {
    var h := GenerateHash(Values(fields), key, sha512);
    var all := fields + [("hash", h)];
    SignedFieldsPlain(fields, h);
    EncodeSplits(all);
    ItemsParse(all, unquote);
    SignedHashEntry(all, unquote);
    SignedHashInput(fields, h, unquote);
    AuthenticWhenHashMatches(body, key, sha512, unquote, Values(fields));
  }

  /** Appending the hash item to plain fields keeps every key and value plain. */
  lemma SignedFieldsPlain(fields: seq<(string, string)>, h: string)
    requires forall i :: 0 <= i < |fields| ==> Plain(fields[i].0) && Plain(fields[i].1)
    requires Plain(h)
    ensures forall i :: 0 <= i < |fields| + 1 ==> Plain((fields + [("hash", h)])[i].0) && Plain((fields + [("hash", h)])[i].1)
  {
    PlainHashKey();
    var all := fields + [("hash", h)];
    forall i | 0 <= i < |all|
      ensures Plain(all[i].0) && Plain(all[i].1)
    {
      if i < |fields| {
        assert all[i] == fields[i];
      } else {
        assert all[i] == ("hash", h);
      }
    }
  }

  /** The notice is authentic when the received hash is the hash of the hash input. */
  lemma AuthenticWhenHashMatches(body: string, key: string, sha512: string -> string, unquote: string -> string,
                                 input: string)
    requires AllHaveEquals(Split(body, '&'))
    requires HashInput(PairsOnce(Split(body, '&')), unquote) == input
    requires var data := WebhookData(Split(body, '&'), unquote);
      "hash" in data && data["hash"] == GenerateHash(input, key, sha512)
    ensures ReadNotice(body, key, sha512, unquote).Notice? && ReadNotice(body, key, sha512, unquote).authentic
  {
  }

  datatype Outcome = Outcome(code: nat, payments: map<string, PaymentModels.Payment>, orders: map<OrderId, Order>)

  /** Every payment's order link points at an order of the table. */
  predicate LinksResolve(payments: map<string, PaymentModels.Payment>, orders: map<OrderId, Order>)
  {
    forall r :: r in payments && payments[r].order.Some? ==> payments[r].order.value in orders
  }

  /**
   * PaynowUpdateView.post on the tables, as intended: a malformed body is a
   * 400; an unknown reference a 404; a wrong hash fails the payment (400); an
   * authentic notice applies the corrected status branch, StatusTransition
   * (200, or 500 when it raises, which it now does only for a payment
   * without an order). As written, an authentic "cancelled" notice for a
   * payment with an order also raises (500) and saves nothing
   * (StatusTransitionAsWritten).
   */
  function Webhook(payments: map<string, PaymentModels.Payment>, orders: map<OrderId, Order>, n: Notice): (out: Outcome)
    requires LinksResolve(payments, orders)
    ensures out.payments.Keys == payments.Keys && out.orders.Keys == orders.Keys
    ensures LinksResolve(out.payments, out.orders)
    ensures out.code in {200, 400, 404, 500}
    ensures n.Malformed? ==> out == Outcome(400, payments, orders)
    ensures n.Notice? && (n.reference.None? || n.reference.value !in payments) ==> out == Outcome(404, payments, orders)
    ensures out.code == 500 ==> out.payments == payments && out.orders == orders
    ensures out.orders != orders ==> out.code == 200 && n.Notice? && n.authentic
    ensures out.payments != payments ==> (n.Notice? && n.reference.Some? && n.reference.value in payments &&
      out.payments == payments[n.reference.value := out.payments[n.reference.value]])
    ensures n.Notice? && n.reference.Some? && n.reference.value in payments && !n.authentic ==>
      out == Outcome(400, payments[n.reference.value := payments[n.reference.value].(status := PaymentModels.Failed)], orders)
    ensures n.Notice? && n.reference.Some? && n.reference.value in payments && n.authentic ==>
      var p := payments[n.reference.value];
      (p.order.None? ==> out == Outcome(500, payments, orders)) &&
      (p.order.Some? ==> var t := StatusTransition(n.status, Some(orders[p.order.value]));
        out == Outcome(200, payments[n.reference.value := p.(status := t.payment)], orders[p.order.value := t.order]))
  {
    match n
    case Malformed => Outcome(400, payments, orders)
    case Notice(reference, authentic, status) =>
      if reference.None? || reference.value !in payments then Outcome(404, payments, orders)
      else
        var p := payments[reference.value];
        if !authentic then Outcome(400, payments[reference.value := p.(status := PaymentModels.Failed)], orders)
        else
          var order := if p.order.Some? then Some(orders[p.order.value]) else None;
          match StatusTransition(status, order)
          case Crash => Outcome(500, payments, orders)
          case Apply(ps, o) => Outcome(200, payments[reference.value := p.(status := ps)], orders[p.order.value := o])
  }

  /**
   * Replaying a notice leaves the tables as the first delivery left them,
   * with the same answer (with the corrected status branch).
   */
  lemma WebhookReplay(payments: map<string, PaymentModels.Payment>, orders: map<OrderId, Order>, n: Notice)
    requires LinksResolve(payments, orders)
    ensures Webhook(Webhook(payments, orders, n).payments, Webhook(payments, orders, n).orders, n) == Webhook(payments, orders, n)
  {
    if n.Notice? && n.reference.Some? && n.reference.value in payments && n.authentic {
      var p := payments[n.reference.value];
      if p.order.Some? {
        StatusTransitionIdempotent(n.status, orders[p.order.value]);
      }
    }
  }

  /** A signed "paid" notice for a payment linked to an order pays both. */
  lemma PaidNoticePays(payments: map<string, PaymentModels.Payment>, orders: map<OrderId, Order>, reference: string)
    requires LinksResolve(payments, orders)
    requires reference in payments && payments[reference].order.Some?
    ensures var out := Webhook(payments, orders, Notice(Some(reference), true, "paid"));
      var id := payments[reference].order.value;
      out.code == 200 && out.payments[reference].status == PaymentModels.Paid &&
      out.orders[id].paymentStatus && out.orders[id].status == Processing
  {
  }

  /** The poll's answer: a status code, and the stored status text when the payment exists. */
  datatype StatusReply = StatusReply(code: nat, status: Option<string>)

  /** CheckPaymentStatusView.get: the stored status of the payment with this reference, or 404. */
  function CheckPaymentStatus(payments: map<string, PaymentModels.Payment>, reference: string): (r: StatusReply)
    ensures r.code == 200 <==> reference in payments
    ensures reference !in payments ==> r == StatusReply(404, None)
    ensures reference in payments ==>
      r.status.Some? && PaymentModels.StatusFromCode(r.status.value) == Some(payments[reference].status)
  {
    if reference in payments then
      PaymentModels.StatusCodeRoundTrip(payments[reference].status);
      StatusReply(200, Some(PaymentModels.StatusCode(payments[reference].status)))
    else StatusReply(404, None)
  }

  /** Polling after an authentic "paid" notice for a payment linked to an order reads PAID. */
  lemma PollAfterPaidNotice(payments: map<string, PaymentModels.Payment>, orders: map<OrderId, Order>, reference: string)
    requires LinksResolve(payments, orders)
    requires reference in payments && payments[reference].order.Some?
    ensures var out := Webhook(payments, orders, Notice(Some(reference), true, "paid"));
      CheckPaymentStatus(out.payments, reference) == StatusReply(200, Some(PaymentModels.StatusCode(PaymentModels.Paid)))
  {
    PaidNoticePays(payments, orders, reference);
  }

  /** Reading the body; the hash input is built by the loop. */
  method ParseNotice(body: string, key: string, sha512: string -> string, unquote: string -> string)
    returns (n: Notice)
    ensures n == ReadNotice(body, key, sha512, unquote)
  {
    var items := Split(body, '&');
    if exists i :: 0 <= i < |items| && '=' !in items[i] {
      return Malformed;
    }
    var data := WebhookData(items, unquote);
    var hashInput := BuildHashInput(PairsOnce(items), unquote);
    var expected := GenerateHash(hashInput, key, sha512);
    n := Notice(if "reference" in data then Some(data["reference"]) else None,
                "hash" in data && data["hash"] == expected,
                Lower(if "status" in data then data["status"] else ""));
  }

  /** Acting on a notice: the lookup, the hash verdict and the corrected status branch. */
  method ApplyNotice(db: Db, n: Notice) returns (code: nat)
    requires db.Valid()
    modifies db
    ensures db.Valid()
    ensures Outcome(code, db.payments, db.orders) == Webhook(old(db.payments), old(db.orders), n)
    ensures db.variants == old(db.variants) && db.promos == old(db.promos) && db.items == old(db.items)
    ensures db.categories == old(db.categories) && db.nextOrderId == old(db.nextOrderId)
    ensures db.nextCategoryId == old(db.nextCategoryId)
  {
    if n.Malformed? {
      return 400;
    }
    if n.reference.None? || n.reference.value !in db.payments {
      return 404;
    }
    var reference := n.reference.value;
    var p := db.payments[reference];
    if !n.authentic {
      ReplacePaymentKeepsSales(db.variants, db.promos, db.orders, db.items, db.payments, db.nextOrderId,
                               reference, p.(status := PaymentModels.Failed));
      db.payments := db.payments[reference := p.(status := PaymentModels.Failed)];
      return 400;
    }
    var order := if p.order.Some? then Some(db.orders[p.order.value]) else None;
    var t := StatusTransition(n.status, order);
    if t.Crash? {
      return 500;
    }
    ReplacePaymentKeepsSales(db.variants, db.promos, db.orders, db.items, db.payments, db.nextOrderId,
                             reference, p.(status := t.payment));
    db.payments := db.payments[reference := p.(status := t.payment)];
    ReplaceOrderKeepsSales(db.variants, db.promos, db.orders, db.items, db.payments, db.nextOrderId,
                           p.order.value, t.order);
    db.orders := db.orders[p.order.value := t.order];
    return 200;
  }

  /** PaynowUpdateView.post on the database, with the corrected status branch. */
  method PaynowUpdate(db: Db, body: string, key: string, sha512: string -> string, unquote: string -> string)
    returns (code: nat)
    requires db.Valid()
    modifies db
    ensures db.Valid()
    ensures Outcome(code, db.payments, db.orders) == Webhook(old(db.payments), old(db.orders), ReadNotice(body, key, sha512, unquote))
    ensures db.variants == old(db.variants) && db.promos == old(db.promos) && db.items == old(db.items)
    ensures db.categories == old(db.categories) && db.nextOrderId == old(db.nextOrderId)
    ensures db.nextCategoryId == old(db.nextCategoryId)
  {
    var n := ParseNotice(body, key, sha512, unquote);
    code := ApplyNotice(db, n);
  }

  // ---------------------------------------------------------------------
  // Initiation

  /** Python's == between a bool and a string: values of different types are never equal. */
  datatype PyValue = PyBool(b: bool) | PyStr(s: string)

  function PyEquals(a: PyValue, b: PyValue): bool
  {
    match (a, b)
    case (PyBool(x), PyBool(y)) => x == y
    case (PyStr(x), PyStr(y)) => x == y
    case _ => false
  }

  /** The already-paid guard as written: the boolean payment_status compared with the string 'PAID'. */
  function AlreadyPaidAsWritten(o: Order): (r: bool)
    ensures !r
  {
    PyEquals(PyBool(o.paymentStatus), PyStr("PAID"))
  }

  /** The guard as intended: a paid order is refused. */
  function AlreadyPaid(o: Order): (r: bool)
    ensures r <==> o.paymentStatus
  {
    o.paymentStatus
  }

  /** The guard as written never rejects, so a paid order gets a second payment attempt. */
  lemma AlreadyPaidAsWrittenNeverFires(o: Order)
    ensures !AlreadyPaidAsWritten(o)
    ensures o.paymentStatus ==> AlreadyPaidAsWritten(o) != AlreadyPaid(o)
  {
  }

  /** A hexadecimal digit as uuid's `hex` writes it. */
  predicate IsLowerHexDigit(c: char)
  {
    '0' <= c <= '9' || 'a' <= c <= 'f'
  }

  predicate IsUpperHexDigit(c: char)
  {
    '0' <= c <= '9' || 'A' <= c <= 'F'
  }

  /** The `hex` of a uuid4: 32 lower-case hexadecimal digits. */
  predicate IsUuidHex(s: string)
  {
    |s| == 32 && forall i :: 0 <= i < |s| ==> IsLowerHexDigit(s[i])
  }

  /**
   * The reference of a payment attempt: "ORDER-", the order number, "-" and
   * the first four hex digits of the uuid, upper-cased; lower-casing the
   * suffix gives those digits back.
   */
  function PaymentReference(orderNumber: string, uuidHex: string): (r: string)
    requires IsUuidHex(uuidHex)
    ensures |r| == |orderNumber| + 11
    ensures r[..6] == "ORDER-" && r[6..6 + |orderNumber|] == orderNumber && r[6 + |orderNumber|] == '-'
    ensures r[|r| - 4..] == Upper(uuidHex[..4])
    ensures forall i :: |r| - 4 <= i < |r| ==>
      IsUpperHexDigit(r[i]) && LowerChar(r[i]) == uuidHex[i - (|r| - 4)]
  {
    var r := "ORDER-" + orderNumber + "-" + Upper(uuidHex[..4]);
    assert r[|r| - 4..] == Upper(uuidHex[..4]);
    r
  }

  /** Attempts for different orders never share a reference. */
  lemma PaymentReferenceSeparatesOrders(n1: string, n2: string, h1: string, h2: string)
    requires IsUuidHex(h1) && IsUuidHex(h2) && |n1| == |n2| && n1 != n2
    ensures PaymentReference(n1, h1) != PaymentReference(n2, h2)
  {
    assert PaymentReference(n1, h1)[6..6 + |n1|] == n1;
    assert PaymentReference(n2, h2)[6..6 + |n2|] == n2;
  }

  /** The integration settings. */
  datatype PaynowSettings = PaynowSettings(integrationId: string, integrationKey: string, resultUrl: string)

  /** The initiation payload before the hash, in insertion order. */
  function Payload(settings: PaynowSettings, p: PaymentModels.Payment, decimalText: real -> string): (r: seq<(string, string)>)
    ensures |r| == 7
    ensures r[0] == ("id", settings.integrationId) && r[1] == ("reference", p.reference)
    ensures r[2] == ("amount", decimalText(p.amount)) && r[3] == ("additionalinfo", p.description)
    ensures r[4] == ("returnurl", "http://localhost:3000/payment-status?reference=" + p.reference)
    ensures r[5] == ("resulturl", settings.resultUrl + "/api/api/payments/update/")
    ensures r[6] == ("status", "Message")
  {
    [("id", settings.integrationId),
     ("reference", p.reference),
     ("amount", decimalText(p.amount)),
     ("additionalinfo", p.description),
     ("returnurl", "http://localhost:3000/payment-status?reference=" + p.reference),
     ("resulturl", settings.resultUrl + "/api/api/payments/update/"),
     ("status", "Message")]
  }

  /** The payload sent: the seven fields, then their hash under the integration key. */
  function SignedPayload(settings: PaynowSettings, p: PaymentModels.Payment, decimalText: real -> string,
                         sha512: string -> string): (r: seq<(string, string)>)
    ensures |r| == 8 && r[..7] == Payload(settings, p, decimalText)
    ensures r[7] == ("hash", GenerateHash(Values(Payload(settings, p, decimalText)), settings.integrationKey, sha512))
  {
    var fields := Payload(settings, p, decimalText);
    fields + [("hash", GenerateHash(Values(fields), settings.integrationKey, sha512))]
  }

  /** The hash of the payload covers the seven values concatenated in order. */
  lemma PayloadHashCoversValues(settings: PaynowSettings, p: PaymentModels.Payment, decimalText: real -> string)
    ensures Values(Payload(settings, p, decimalText)) ==
      settings.integrationId + p.reference + decimalText(p.amount) + p.description +
      ("http://localhost:3000/payment-status?reference=" + p.reference) +
      (settings.resultUrl + "/api/api/payments/update/") + "Message"
  {
    var f := Payload(settings, p, decimalText);
    assert f[..1][..0] == [];
    assert Values(f[..1]) == f[0].1;
    assert f[..2][..1] == f[..1];
    assert Values(f[..2]) == f[0].1 + f[1].1;
    assert f[..3][..2] == f[..2];
    assert Values(f[..3]) == f[0].1 + f[1].1 + f[2].1;
    assert f[..4][..3] == f[..3];
    assert Values(f[..4]) == f[0].1 + f[1].1 + f[2].1 + f[3].1;
    assert f[..5][..4] == f[..4];
    assert Values(f[..5]) == f[0].1 + f[1].1 + f[2].1 + f[3].1 + f[4].1;
    assert f[..6][..5] == f[..5];
    assert Values(f[..6]) == f[0].1 + f[1].1 + f[2].1 + f[3].1 + f[4].1 + f[5].1;
    assert f[..7][..6] == f[..6];
    assert f[..7] == f;
  }

  /** The provider's answer to the initiation request. */
  datatype ProviderReply = ProviderReply(ok: bool, text: string)

  /** The handler's answer: a status code and the redirect URL or error text. */
  datatype Reply = Reply(code: nat, text: Option<string>)

  /** dict(item.split('=', 1) for item in text.split('&')), or None when an item has no `=` and dict() raises. */
  function ParseReply(text: string): (r: Option<map<string, string>>)
    ensures r.Some? <==> AllHaveEquals(Split(text, '&'))
  {
    var items := Split(text, '&');
    if AllHaveEquals(items) then Some(ToDict(PairsOnce(items))) else None
  }

  /**
   * Steps 6 and 7 of the initiation for a payment saved PENDING: the payment
   * as it ends up and the answer. A refused request fails the payment (500);
   * an unreadable reply raises and leaves it PENDING (500); status "ok"
   * stores the provider's reference and redirects, raising (500) when no
   * browser URL came back; any other status fails the payment (400).
   */
  function AfterReply(p: PaymentModels.Payment, reply: ProviderReply, unquote: string -> string): (r: (PaymentModels.Payment, Reply))
    requires p.status == PaymentModels.Pending && p.paynowReference.None?
    ensures r.0.(paynowReference := None, status := PaymentModels.Pending) == p
    ensures r.0.status in {PaymentModels.Pending, PaymentModels.Failed}
    ensures r.0.status == PaymentModels.Pending <==> r.1.code == 200 || (r.1.code == 500 && reply.ok)
    ensures r.0.status == PaymentModels.Failed <==> r.1.code == 400 || (r.1.code == 500 && !reply.ok)
    ensures r.0.paynowReference.Some? ==> r.0.status == PaymentModels.Pending && r.1.code != 400
    ensures r.1.code in {200, 400, 500} && (r.1.code != 500 ==> r.1.text.Some?)
    ensures !reply.ok ==> r.0.paynowReference.None?
  {
    if !reply.ok then (p.(status := PaymentModels.Failed), Reply(500, Some("Failed to connect to Paynow.")))
    else match ParseReply(reply.text)
      case None => (p, Reply(500, None))
      case Some(data) =>
        var status := Lower(if "status" in data then data["status"] else "");
        if status == "ok" then
          var q := p.(paynowReference := if "paynowreference" in data then Some(data["paynowreference"]) else None);
          if "browserurl" in data then (q, Reply(200, Some(unquote(data["browserurl"])))) else (q, Reply(500, None))
        else
          var message := unquote(if "error" in data then data["error"] else "Unknown error from Paynow.");
          (p.(status := PaymentModels.Failed), Reply(400, Some(message)))
  }

  /** An "ok" reply with a browser URL redirects there and records the provider's reference. */
  lemma OkReplyRedirects(p: PaymentModels.Payment, text: string, unquote: string -> string)
    requires p.status == PaymentModels.Pending && p.paynowReference.None?
    requires ParseReply(text).Some? && "browserurl" in ParseReply(text).value && "paynowreference" in ParseReply(text).value
    requires "status" in ParseReply(text).value && Lower(ParseReply(text).value["status"]) == "ok"
    ensures var data := ParseReply(text).value;
      AfterReply(p, ProviderReply(true, text), unquote) ==
        (p.(paynowReference := Some(data["paynowreference"])), Reply(200, Some(unquote(data["browserurl"]))))
  {
  }

  /**
   * InitiatePaymentView.post with the paid-order guard as intended. The
   * payment is saved PENDING before the request and then as AfterReply
   * leaves it; `sent` is the payload posted to Paynow, empty when none is.
   */
  method InitiatePayment(db: Db, orderId: Option<int>, uuidHex: string, settings: PaynowSettings,
                         sha512: string -> string, decimalText: real -> string, unquote: string -> string,
                         reply: ProviderReply)
    returns (resp: Reply, sent: seq<(string, string)>)
    requires db.Valid() && IsUuidHex(uuidHex)
    modifies db
    ensures db.Valid()
    ensures db.variants == old(db.variants) && db.promos == old(db.promos) && db.items == old(db.items)
    ensures db.orders == old(db.orders) && db.categories == old(db.categories)
    ensures db.nextOrderId == old(db.nextOrderId) && db.nextCategoryId == old(db.nextCategoryId)
    ensures orderId.None? || orderId.value == 0 ==> resp.code == 400 && db.payments == old(db.payments) && sent == []
    ensures (orderId.Some? && orderId.value != 0 && (orderId.value < 0 || orderId.value as nat !in old(db.orders))) ==>
      resp.code == 404 && db.payments == old(db.payments) && sent == []
    ensures (orderId.Some? && orderId.value > 0 && orderId.value as nat in old(db.orders) &&
      old(db.orders)[orderId.value as nat].paymentStatus) ==> resp.code == 400 && db.payments == old(db.payments) && sent == []
    ensures (orderId.Some? && orderId.value > 0 && orderId.value as nat in old(db.orders) &&
      !old(db.orders)[orderId.value as nat].paymentStatus) ==>
      var o := old(db.orders)[orderId.value as nat];
      var reference := PaymentReference(o.orderNumber, uuidHex);
      var created := PaymentModels.Payment(Some(orderId.value as nat), o.totalPrice,
        "Payment for Order #" + o.orderNumber, reference, None, PaymentModels.Pending);
      if reference in old(db.payments) then resp.code == 500 && db.payments == old(db.payments) && sent == []
      else (db.payments == old(db.payments)[reference := AfterReply(created, reply, unquote).0] &&
        resp == AfterReply(created, reply, unquote).1 && sent == SignedPayload(settings, created, decimalText, sha512))
  {
    sent := [];
    if orderId.None? || orderId.value == 0 {
      return Reply(400, Some("order_id is required.")), sent;
    }
    if orderId.value < 0 || orderId.value as nat !in db.orders {
      return Reply(404, Some("Invalid order_id. Order not found.")), sent;
    }
    var id := orderId.value as nat;
    var o := db.orders[id];
    if AlreadyPaid(o) {
      return Reply(400, Some("This order has already been paid for.")), sent;
    }
    var reference := PaymentReference(o.orderNumber, uuidHex);
    if reference in db.payments {
      // the unique reference column refuses the insert
      return Reply(500, None), sent;
    }
    var created := PaymentModels.Payment(Some(id), o.totalPrice, "Payment for Order #" + o.orderNumber,
                                         reference, None, PaymentModels.Pending);
    sent := SignedPayload(settings, created, decimalText, sha512);
    resp := RecordPayment(db, created, reply, unquote);
  }

  /** The new payment is saved PENDING, then saved again as the provider's reply leaves it. */
  method RecordPayment(db: Db, created: PaymentModels.Payment, reply: ProviderReply, unquote: string -> string)
    returns (resp: Reply)
    requires db.Valid() && created.reference !in db.payments
    requires created.order.Some? ==> created.order.value in db.orders
    requires created.status == PaymentModels.Pending && created.paynowReference.None?
    modifies db
    ensures db.Valid()
    ensures db.variants == old(db.variants) && db.promos == old(db.promos) && db.items == old(db.items)
    ensures db.orders == old(db.orders) && db.categories == old(db.categories)
    ensures db.nextOrderId == old(db.nextOrderId) && db.nextCategoryId == old(db.nextCategoryId)
    ensures db.payments == old(db.payments)[created.reference := AfterReply(created, reply, unquote).0]
    ensures resp == AfterReply(created, reply, unquote).1
  {
    var reference := created.reference;
    var pending := db.payments[reference := created];
    InsertPaymentKeepsSales(db.variants, db.promos, db.orders, db.items, db.payments, db.nextOrderId, created);
    var after := AfterReply(created, reply, unquote);
    ReplacePaymentKeepsSales(db.variants, db.promos, db.orders, db.items, pending, db.nextOrderId, reference, after.0);
    assert pending[reference := after.0] == db.payments[reference := after.0];
    db.SetPayments(pending[reference := after.0]);
    resp := after.1;
  }

  // ---------------------------------------------------------------------
  // PayPal capture

  /** The capture call: it fails (network or HTTP error), or answers with an optional status. */
  datatype CaptureReply = CaptureFailed | Captured(status: Option<string>)

  /** The order after a completed capture: paid and processing, like a Paynow "paid" webhook. */
  function CapturedOrder(o: Order): (r: Order)
    ensures r.paymentStatus && r.status == Processing
    ensures r.(paymentStatus := o.paymentStatus, status := o.status) == o
  {
    o.(paymentStatus := true, status := Processing)
  }

  /** A completed PayPal capture and a Paynow "paid" webhook leave an order the same. */
  lemma CaptureMatchesPaidWebhook(o: Order)
    ensures StatusTransition("paid", Some(o)) == Apply(PaymentModels.Paid, CapturedOrder(o))
  {
  }

  /** The order with this id exists and belongs to the user; any other id is "not found". */
  predicate OwnOrder(orders: map<OrderId, Order>, user: User, id: Option<int>)
  {
    id.Some? && id.value >= 0 && id.value as nat in orders && orders[id.value as nat].user == user.id
  }

  /**
   * PayPalCaptureOrderView.post: no access token is a 500; the order must be
   * the user's (404); a paid order is refused before any capture (400); a
   * failed capture is a 500; status COMPLETED pays the order, any other is
   * a 400 with nothing changed.
   */
  method PayPalCapture(db: Db, user: User, userOrderId: Option<int>, haveToken: bool, reply: CaptureReply)
    returns (code: nat)
    requires db.Valid()
    modifies db
    ensures db.Valid()
    ensures db.variants == old(db.variants) && db.promos == old(db.promos) && db.items == old(db.items)
    ensures db.payments == old(db.payments) && db.categories == old(db.categories)
    ensures db.nextOrderId == old(db.nextOrderId) && db.nextCategoryId == old(db.nextCategoryId)
    ensures !haveToken ==> code == 500 && db.orders == old(db.orders)
    ensures haveToken && !OwnOrder(old(db.orders), user, userOrderId) ==> code == 404 && db.orders == old(db.orders)
    ensures (haveToken && OwnOrder(old(db.orders), user, userOrderId) &&
      old(db.orders)[userOrderId.value as nat].paymentStatus) ==> code == 400 && db.orders == old(db.orders)
    ensures code == 200 <==> (haveToken && OwnOrder(old(db.orders), user, userOrderId) &&
      !old(db.orders)[userOrderId.value as nat].paymentStatus && reply == Captured(Some("COMPLETED")))
    ensures code == 200 ==>
      db.orders == old(db.orders)[userOrderId.value as nat := CapturedOrder(old(db.orders)[userOrderId.value as nat])]
    ensures code != 200 ==> db.orders == old(db.orders)
  {
    if !haveToken {
      return 500;
    }
    if !OwnOrder(db.orders, user, userOrderId) {
      return 404;
    }
    var id := userOrderId.value as nat;
    var o := db.orders[id];
    if o.paymentStatus {
      return 400;
    }
    if reply.CaptureFailed? {
      return 500;
    }
    if reply.status == Some("COMPLETED") {
      ReplaceOrderKeepsSales(db.variants, db.promos, db.orders, db.items, db.payments, db.nextOrderId, id, CapturedOrder(o));
      db.orders := db.orders[id := CapturedOrder(o)];
      return 200;
    }
    return 400;
  }
}
