/** The run record and the store that keeps run records by identity. */
module Models {
  import opened Wrappers

  /** Instants and durations are opaque numbers supplied by the caller's clock. */
  type Time = int

  datatype Status = Running | Succeeded | Failed

  /** One backup run. */
  datatype Backup = Backup(
    id: nat,
    startedAt: Time,
    finishedAt: Option<Time>,
    status: Status,
    filesChanged: int,
    commitHash: string,
    commitMessage: string,
    errorMessage: string,
    durationMs: int)

  /** A record is finished exactly when it has left the running state. */
  predicate FinishedIffTerminal(b: Backup) {
    b.finishedAt.Some? <==> b.status != Running
  }

  /** The store: records by identity, and the identity the next creation receives. */
  datatype Store = Store(rows: map<nat, Backup>, nextId: nat)

  predicate Valid(st: Store) {
    forall id :: id in st.rows ==> st.rows[id].id == id && id < st.nextId
  }

  /** Every stored record is finished exactly when it has left the running state. */
  predicate Consistent(st: Store) {
    && Valid(st)
    && forall id :: id in st.rows ==> FinishedIffTerminal(st.rows[id])
  }

  /** No stored record is still running. */
  predicate Settled(st: Store) {
    forall id :: id in st.rows ==> st.rows[id].status != Running
  }

  /** Inserts a new record under a fresh identity and returns it as stored. */
  function Create(st: Store, b: Backup): (r: (Store, Backup))
    requires Valid(st)
    ensures r.1 == b.(id := st.nextId)
    ensures r.1.id !in st.rows
    ensures r.0.rows == st.rows[r.1.id := r.1]
    ensures Valid(r.0)
  {
    var stored := b.(id := st.nextId);
    (Store(st.rows[stored.id := stored], st.nextId + 1), stored)
  }

  /** Writes the whole record under its identity, replacing what was stored there. */
  function Save(st: Store, b: Backup): (r: Store)
    requires Valid(st)
    requires b.id in st.rows
    ensures r.rows.Keys == st.rows.Keys
    ensures r.rows[b.id] == b
    ensures forall id :: id in st.rows && id != b.id ==> r.rows[id] == st.rows[id]
    ensures r.nextId == st.nextId
    ensures Valid(r)
  {
    Store(st.rows[b.id := b], st.nextId)
  }
}
