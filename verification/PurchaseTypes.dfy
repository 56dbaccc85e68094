/** Rows and values of the purchase-charge flow. */
module PurchaseTypes {
  import opened Common

  type Time = int

  /** Identity of one run of CreatePurchaseCharge. Its random execution token
      and the purchase id it may issue are named after it, so two runs never
      share either. */
  type Token = nat

  const PURCHASE_OPERATION := "purchases.charge.v2"

  /** Primary key of the idempotency table. `IntentKey` stands for the digest of
      (owner, operation, intent); being a constructor it is injective. */
  datatype Key = IntentKey(owner: string, intent: string) | PlainKey(name: string)

  /** The versioned commercial terms a request hash digests. The digest itself
      is injective, so the terms stand for it. */
  datatype Terms = Terms(
    version: int, userId: string, artworkKind: string, artworkId: string,
    customer: string, paymentMethod: string, metadata: string, shippingCents: int,
    buyer: string, seller: string, editionId: nat, chipId: string, nonce: nat, certificateId: nat)

  datatype Input = Input(
    actor: string, userId: string, artworkKind: string, artworkId: string,
    customer: string, paymentMethod: string, intent: string, metadata: string, shippingCents: int,
    buyer: string, seller: string, editionId: nat, chipId: string, nonce: nat, certificateId: nat)

  function RequestHash(input: Input): Terms {
    Terms(1, input.userId, input.artworkKind, input.artworkId, input.customer, input.paymentMethod,
          input.metadata, input.shippingCents, input.buyer, input.seller, input.editionId,
          input.chipId, input.nonce, input.certificateId)
  }

  function InputKey(input: Input): Key {
    IntentKey(input.userId, input.intent)
  }

  datatype ExecutionState = Reserved | Executing | Recorded | NotCharged | Unknown

  datatype Code =
    | NotChargedCode
    | ReconciliationRequired
    | PaymentIntentConflict
    | LookupUnavailable
    | ResultBodyExpired
    | TermsConflict
    | IntentInProgress
    | ReservationUnavailable

  datatype PurchaseId = Issued(token: Token) | Legacy(name: string)

  datatype PurchaseStatus = PaidPendingEscrow | EscrowOpening

  /** The columns OpenEscrow rewrites after the charge is recorded. */
  datatype EscrowColumns = EscrowColumns(
    status: PurchaseStatus, jobId: Option<nat>, chipId: string, nonce: nat, openKey: string)

  datatype Charge = Charge(
    id: nat, purchaseId: PurchaseId, userId: string, operation: Option<string>,
    intent: Option<string>, requestHash: Option<Terms>, hashVersion: Option<int>,
    paymentIntent: string, amounts: string, escrow: EscrowColumns)

  /** Stored response bytes. JSON encoding is exact, so the encoded value stands
      for the bytes. */
  datatype Body =
    | RawBody(text: string)
    | ErrorBody(status: int, code: Code, intent: string)
    | ChargeBody(charge: Charge)

  /** The purchase columns of a row; they are all NULL on a generic cache row. */
  datatype Intent = Intent(
    owner: string, intent: string, requestHash: Terms, hashVersion: int,
    state: ExecutionState, token: Token, leaseUntil: Time, effect: bool,
    purchaseId: Option<PurchaseId>, paymentIntent: Option<string>, paymentStatus: Option<string>,
    customer: string, errorCode: Option<Code>, responseExpiresAt: Option<Time>)

  /** One row of `idempotency_keys`; `intent.Some?` is record_kind = 'purchase'. */
  datatype Row = Row(
    expiry: Option<Time>, statusCode: int, contentType: string, body: Option<Body>,
    completed: bool, intent: Option<Intent>)

  type Rows = map<Key, Row>

  predicate Terminal(state: ExecutionState) {
    state == Recorded || state == NotCharged || state == Unknown
  }

  /** A request hash binds exactly the commercial terms: it ignores the actor
      and the intent id, and nothing else. */
  lemma HashBindsTerms(a: Input, b: Input)
    ensures RequestHash(a) == RequestHash(b) <==> a == b.(actor := a.actor, intent := a.intent)
  {
  }
}
