/**
 * The StripePayment record of model/StripePayment.js: `srNo` and `amount` are
 * required, the status, currency and bonus flag have defaults, and `payment_id`,
 * the key the webhook looks payments up by, is neither required nor unique.
 */
module StripePaymentSchema {
  import opened Wrappers
  import opened Values

  datatype StripePayment = StripePayment(
    id: ObjectId,
    srNo: int,
    paymentStatus: string,
    paymentType: Option<string>,
    lessonId: Option<ObjectId>,
    userId: Option<ObjectId>,
    paymentId: Option<string>,
    sessionId: Option<string>,
    amount: Money,
    currency: string,
    isBonus: bool)

  /**
   * The paths a `StripePayment.create({...})` call supplies. A number that
   * JavaScript computed as `NaN` (a `parseInt` of an absent value) is `None`:
   * the ODM refuses to cast it, as it refuses an absent required path.
   */
  datatype PaymentFields = PaymentFields(
    srNo: Option<int>,
    paymentStatus: Option<string>,
    paymentType: Option<string>,
    lessonId: Option<ObjectId>,
    userId: Option<ObjectId>,
    paymentId: Option<string>,
    amount: Option<Money>,
    currency: Option<string>,
    isBonus: Option<bool>)

  /** The paths StripePayment.js declares `required`. */
  datatype PaymentPath = SrNoPath | AmountPath

  const DefaultStatus: string := "pending"
  const DefaultCurrency: string := "JPY"

  /**
   * Creating a payment record: validation fails, naming the missing required
   * paths, or the record holds the supplied paths and the schema's defaults.
   */
  function NewStripePayment(id: ObjectId, f: PaymentFields): (r: Result<StripePayment, seq<PaymentPath>>)
    ensures r.Ok? <==> f.srNo.Some? && f.amount.Some?
    ensures r.Err? ==> |r.error| > 0
    ensures r.Err? ==> (SrNoPath in r.error <==> f.srNo.None?) && (AmountPath in r.error <==> f.amount.None?)
    ensures r.Ok? ==> (
      && r.value.id == id
      && Some(r.value.srNo) == f.srNo && Some(r.value.amount) == f.amount
      && r.value.paymentId == f.paymentId && r.value.userId == f.userId
      && r.value.lessonId == f.lessonId && r.value.paymentType == f.paymentType)
    ensures r.Ok? ==> r.value.sessionId.None?
    ensures r.Ok? && f.paymentStatus.None? ==> r.value.paymentStatus == "pending"
    ensures r.Ok? && f.paymentStatus.Some? ==> r.value.paymentStatus == f.paymentStatus.value
    ensures r.Ok? && f.currency.None? ==> r.value.currency == "JPY"
    ensures r.Ok? && f.currency.Some? ==> r.value.currency == f.currency.value
    ensures r.Ok? && f.isBonus.None? ==> !r.value.isBonus
    ensures r.Ok? && f.isBonus.Some? ==> r.value.isBonus == f.isBonus.value
  {
    var missing := (if f.srNo.None? then [SrNoPath] else []) + (if f.amount.None? then [AmountPath] else []);
    if missing != [] then Err(missing)
    else
      Ok(StripePayment(
        id := id,
        srNo := f.srNo.value,
        paymentStatus := f.paymentStatus.GetOr(DefaultStatus),
        paymentType := f.paymentType,
        lessonId := f.lessonId,
        userId := f.userId,
        paymentId := f.paymentId,
        sessionId := None,
        amount := f.amount.value,
        currency := f.currency.GetOr(DefaultCurrency),
        isBonus := f.isBonus.GetOr(false)))
  }

  /** `StripePayment.findOne({ payment_id: pid })`: the first record carrying that payment id. */
  function FindByPaymentId(payments: seq<StripePayment>, pid: string): (r: Option<StripePayment>)
    ensures r.Some? ==> r.value in payments && r.value.paymentId == Some(pid)
    ensures r.None? <==> forall k :: 0 <= k < |payments| ==> payments[k].paymentId != Some(pid)
  {
    if |payments| == 0 then None
    else if payments[0].paymentId == Some(pid) then Some(payments[0])
    else FindByPaymentId(payments[1..], pid)
  }

  /** No two records share a payment id; the schema itself never enforces this. */
  ghost predicate UniquePaymentIds(payments: seq<StripePayment>)
  {
    forall i, j :: 0 <= i < j < |payments| && payments[i].paymentId.Some? ==>
      payments[i].paymentId != payments[j].paymentId
  }

  /**
   * Nothing in the schema keeps payment ids unique: a second record with the
   * same payment id is a valid record, and appending it breaks uniqueness.
   */
  lemma DuplicatePaymentIdAccepted(payments: seq<StripePayment>, id: ObjectId, f: PaymentFields, k: nat)
    requires k < |payments| && payments[k].paymentId.Some?
    requires f.srNo.Some? && f.amount.Some? && f.paymentId == payments[k].paymentId
    ensures NewStripePayment(id, f).Ok?
    ensures !UniquePaymentIds(payments + [NewStripePayment(id, f).value])
  {
    var all := payments + [NewStripePayment(id, f).value];
    assert all[k] == payments[k] && all[|payments|].paymentId == payments[k].paymentId;
  }
}
