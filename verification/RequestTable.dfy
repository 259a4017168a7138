/** The durable request table and the effect of every committed transaction on it.
    Each function gives the table after one transaction together with what the transaction returns;
    an error leaves the table as it was, because the transaction rolls back in full. */
module RequestTable {
  import opened Outcomes

  const MICROS: int := 1_000_000

  /** A reading of the clock, in microseconds. */
  type Instant = int

  /** The whole-second value that the stored text of an instant denotes: fractions are dropped. */
  function Seconds(now: Instant): int {
    now / MICROS
  }

  datatype Status = Reserved | InProgress | Completed | Failed | Ambiguous | Expired | Acknowledged

  datatype Disposition = Persisted | ApplicationRejected

  /** SHA-256 over the canonical request, taken as injective: a digest is what it digests, and the
      expiry (whole seconds) is part of the digested request. */
  datatype Digest = Digest(expires: int, body: string)

  datatype Request = Request(id: string, digest: Digest)

  /** What the cipher binds a result to. */
  datatype Binding = Binding(id: string, owner: string, digest: Digest)

  /** An ideal authenticated ciphertext. */
  datatype Sealed = Sealed(nonce: nat, binding: Binding, plaintext: string)

  function Decrypt(nonce: nat, sealed: Sealed, binding: Binding): Option<string> {
    if sealed.nonce == nonce && sealed.binding == binding then Some(sealed.plaintext) else None
  }

  datatype RowError = RowError(code: string, retryable: bool, retryAfter: Option<nat>)

  datatype Row = Row(
    owner: string,
    digest: Digest,
    expires: int,
    status: Status,
    attempt: Option<nat>,
    mediaType: Option<string>,
    nonce: Option<nat>,
    ciphertext: Option<Sealed>,
    deployment: Option<string>,
    policyVersion: Option<nat>,
    error: Option<RowError>,
    disposition: Option<Disposition>,
    updated: int)

  type Table = map<string, Row>

  datatype StoreError =
    | Forbidden | IdentityConflict | CapacityLimited | RequestExpired | RequestUnknown
    | NotTerminal | AcknowledgementConflict | Rejected

  datatype Limits = Limits(maxOpenTotal: nat, maxOpenPerCredential: nat, retention: nat)

  predicate Tombstone(status: Status) {
    status == Acknowledged || status == Expired
  }

  predicate Open(status: Status) {
    status == Reserved || status == InProgress || status == Completed || status == Ambiguous
  }

  /** A row past its expiry gives up its output and becomes a tombstone. */
  function ExpireRow(row: Row, now: Instant): Row {
    if !Tombstone(row.status) && row.expires <= Seconds(now) then
      row.(status := Expired, mediaType := None, nonce := None, ciphertext := None, updated := Seconds(now))
    else
      row
  }

  predicate Forgotten(row: Row, now: Instant, retention: nat) {
    Tombstone(row.status) && row.updated < Seconds(now - retention * MICROS)
  }

  function Cleanup(t: Table, now: Instant, retention: nat): Table {
    map id | id in t && !Forgotten(ExpireRow(t[id], now), now, retention) :: ExpireRow(t[id], now)
  }

  function OpenRows(t: Table): set<string> {
    set id | id in t && Open(t[id].status)
  }

  function OpenRowsOf(t: Table, owner: string): set<string> {
    set id | id in t && Open(t[id].status) && t[id].owner == owner
  }

  function FreshRow(request: Request, owner: string, now: Instant): Row {
    Row(owner, request.digest, request.digest.expires, Reserved, None, None, None, None, None, None, None, None,
        Seconds(now))
  }

  function Authorize(row: Row, owner: string, digest: Option<Digest>): Option<StoreError> {
    if row.owner != owner then Some(Forbidden)
    else if digest.Some? && row.digest != digest.value then Some(IdentityConflict)
    else None
  }

  function Admit(limits: Limits, t: Table, request: Request, owner: string, now: Instant)
    : (Table, Result<Row, StoreError>)
  {
    var c := Cleanup(t, now, limits.retention);
    if request.id in c then
      match Authorize(c[request.id], owner, Some(request.digest))
      case Some(e) => (t, Err(e))
      case None => (c, Ok(c[request.id]))
    else if request.digest.expires * MICROS <= now then
      (t, Err(RequestExpired))
    else if |OpenRows(c)| >= limits.maxOpenTotal || |OpenRowsOf(c, owner)| >= limits.maxOpenPerCredential then
      (t, Err(CapacityLimited))
    else
      var row := FreshRow(request, owner, now);
      (c[request.id := row], Ok(row))
  }

  function GetOwned(limits: Limits, t: Table, id: string, owner: string, digest: Option<Digest>, now: Instant)
    : (Table, Result<Row, StoreError>)
  {
    var c := Cleanup(t, now, limits.retention);
    if id !in c then (t, Err(RequestUnknown))
    else
      match Authorize(c[id], owner, digest)
      case Some(e) => (t, Err(e))
      case None => (c, Ok(c[id]))
  }

  function MarkInProgress(limits: Limits, t: Table, id: string, attempt: nat, now: Instant)
    : (Table, Result<Row, StoreError>)
  {
    var c := Cleanup(t, now, limits.retention);
    if id in c && c[id].status == Reserved then
      var row := c[id].(status := InProgress, attempt := Some(attempt), updated := Seconds(now));
      (c[id := row], Ok(row))
    else
      (t, Err(Rejected))
  }

  /** The fence of every outcome update: the row is still in progress under this very attempt. */
  predicate OwnedBy(t: Table, id: string, attempt: nat) {
    id in t && t[id].status == InProgress && t[id].attempt == Some(attempt)
  }

  function ResetReserved(t: Table, id: string, attempt: nat, now: Instant): Table {
    if OwnedBy(t, id, attempt) then
      t[id := t[id].(status := Reserved, attempt := None, updated := Seconds(now))]
    else t
  }

  function MarkAmbiguous(t: Table, id: string, attempt: nat, now: Instant): Table {
    if OwnedBy(t, id, attempt) then
      t[id := t[id].(status := Ambiguous, updated := Seconds(now))]
    else t
  }

  function MarkFailed(t: Table, id: string, attempt: nat, error: RowError, now: Instant): Table {
    if OwnedBy(t, id, attempt) then
      t[id := t[id].(status := Failed, error := Some(error), updated := Seconds(now))]
    else t
  }

  /** What a worker produced, together with the provenance that is stored beside it. */
  datatype Output = Output(mediaType: string, content: string, deployment: string, policyVersion: nat)

  function CompletedRow(row: Row, id: string, output: Output, nonce: nat, now: Instant): Row {
    row.(status := Completed,
         mediaType := Some(output.mediaType),
         nonce := Some(nonce),
         ciphertext := Some(Sealed(nonce, Binding(id, row.owner, row.digest), output.content)),
         deployment := Some(output.deployment),
         policyVersion := Some(output.policyVersion),
         updated := Seconds(now))
  }

  function Complete(limits: Limits, t: Table, id: string, attempt: nat, output: Output, nonce: nat, now: Instant)
    : (Table, Result<bool, StoreError>)
  {
    var c := Cleanup(t, now, limits.retention);
    if id !in c || c[id].status == Expired then (c, Ok(false))
    else if !OwnedBy(c, id, attempt) then (t, Err(Rejected))
    else (c[id := CompletedRow(c[id], id, output, nonce, now)], Ok(true))
  }

  function Acknowledge(limits: Limits, t: Table, id: string, owner: string, disposition: Disposition, now: Instant)
    : (Table, Result<Row, StoreError>)
  {
    var c := Cleanup(t, now, limits.retention);
    if id !in c then (t, Err(RequestUnknown))
    else if Authorize(c[id], owner, None).Some? then (t, Err(Authorize(c[id], owner, None).value))
    else if c[id].status == Acknowledged then
      if c[id].disposition != Some(disposition) then (t, Err(AcknowledgementConflict)) else (c, Ok(c[id]))
    else if c[id].status == Expired then (t, Err(RequestExpired))
    else if c[id].status != Completed then (t, Err(NotTerminal))
    else
      var row := c[id].(status := Acknowledged, disposition := Some(disposition), mediaType := None,
                        nonce := None, ciphertext := None, updated := Seconds(now));
      (c[id := row], Ok(row))
  }

  function Interrupt(row: Row, now: Instant): Row {
    if row.status == InProgress then row.(status := Ambiguous, updated := Seconds(now)) else row
  }

  /** Start-up after a stop or a crash: work that was in progress becomes ambiguous, then cleanup runs. */
  function Initialize(limits: Limits, t: Table, now: Instant): Table {
    Cleanup(map id | id in t :: Interrupt(t[id], now), now, limits.retention)
  }
}
