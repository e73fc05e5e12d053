/** The `PreOnboardings` table: rows with an identity key that starts at 1 and
    steps by 1, and a unique index on the pair
    (external candidate id, CRISIL offer id). */
module Store {
  import opened Wrappers
  import opened Dates

  /** One stored pre-onboarding record. Nested sections are kept as JSON text. */
  datatype Entity = Entity(
    id: int,
    externalCandidateId: string,
    crisilOfferId: string,
    joiningStatus: Option<string>,
    joiningDate: Date,
    firstName: string,
    lastName: string,
    dateOfBirth: Date,
    gender: Option<string>,
    nationality: Option<string>,
    personalEmail: string,
    mobileCountryCode: Option<string>,
    mobileNumber: string,
    addressJson: Option<string>,
    jobJson: Option<string>,
    payJson: Option<string>,
    kycJson: Option<string>,
    emergencyContactJson: Option<string>,
    createdUtc: int,
    updatedUtc: Option<int>,
    createdBy: Option<string>,
    updatedBy: Option<string>,
    rawRequestJson: Option<string>,
    status: string)

  /** The rows in insertion order and the next identity value. */
  datatype Store = Store(rows: seq<Entity>, nextId: int)

  /** A freshly created table: no rows, identity seed 1. */
  const Empty: Store := Store([], 1)

  /** The status every new row receives. */
  const ActiveStatus: string := "Active"

  /** Some row already holds the key pair. */
  predicate KeyTaken(st: Store, externalCandidateId: string, crisilOfferId: string) {
    exists i | 0 <= i < |st.rows| ::
      st.rows[i].externalCandidateId == externalCandidateId && st.rows[i].crisilOfferId == crisilOfferId
  }

  /** Some row has the id. */
  predicate HasId(st: Store, id: int) {
    exists i | 0 <= i < |st.rows| :: st.rows[i].id == id
  }

  /** The table's constraints: every id lies below the identity counter and
      is positive, ids are distinct, and the key pair is unique. */
  predicate Valid(st: Store) {
    && st.nextId >= 1
    && (forall i :: 0 <= i < |st.rows| ==> 1 <= st.rows[i].id < st.nextId)
    && (forall i, j :: 0 <= i < j < |st.rows| ==> st.rows[i].id != st.rows[j].id)
    && (forall i, j :: 0 <= i < j < |st.rows| ==>
          (st.rows[i].externalCandidateId, st.rows[i].crisilOfferId)
          != (st.rows[j].externalCandidateId, st.rows[j].crisilOfferId))
  }

  lemma EmptyIsValid()
    ensures Valid(Empty)
    ensures !HasId(Empty, 1)
  {
  }

  /** What `SaveChanges` does with one added row. */
  datatype InsertOutcome =
    | Inserted(store: Store, id: int)
    | DuplicateKey

  /** Adds `e` under the next identity value, unless its key pair is taken,
      in which case nothing is written. */
  function Insert(st: Store, e: Entity): (r: InsertOutcome)
    ensures r.DuplicateKey? <==> KeyTaken(st, e.externalCandidateId, e.crisilOfferId)
    ensures r.Inserted? ==> r.id == st.nextId && |r.store.rows| == |st.rows| + 1
    ensures r.Inserted? ==> r.store.rows[..|st.rows|] == st.rows
    ensures r.Inserted? ==> r.store.rows[|st.rows|] == e.(id := r.id)
  {
    if KeyTaken(st, e.externalCandidateId, e.crisilOfferId) then DuplicateKey
    else
      var row := e.(id := st.nextId);
      var rows := st.rows + [row];
      assert rows[..|st.rows|] == st.rows;
      Inserted(Store(rows, st.nextId + 1), st.nextId)
  }

  /** The first row with the id, if any (`FirstOrDefault(x => x.Id == id)`). */
  function FindById(st: Store, id: int): (r: Option<Entity>)
    ensures r.None? <==> !HasId(st, id)
    ensures r.Some? ==> r.value in st.rows && r.value.id == id
  {
    FindFrom(st.rows, id)
  }

  function FindFrom(rows: seq<Entity>, id: int): (r: Option<Entity>)
    ensures r.None? <==> forall i :: 0 <= i < |rows| ==> rows[i].id != id
    ensures r.Some? ==> r.value in rows && r.value.id == id
  {
    if |rows| == 0 then None
    else if rows[0].id == id then Some(rows[0])
    else
      var r := FindFrom(rows[1..], id);
      assert forall i :: 1 <= i < |rows| ==> rows[i] == rows[1..][i - 1];
      r
  }

  // ---------------------------------------------------------------------------
  // Properties of the table

  /** A new row's id exceeds every id already stored. */
  lemma InsertIdIsFresh(st: Store, e: Entity)
    requires Valid(st)
    requires Insert(st, e).Inserted?
    ensures forall i :: 0 <= i < |st.rows| ==> st.rows[i].id < Insert(st, e).id
    ensures !HasId(st, Insert(st, e).id)
  {
  }

  /** Inserting keeps the table's constraints. */
  lemma InsertPreservesValid(st: Store, e: Entity)
    requires Valid(st)
    ensures Insert(st, e).Inserted? ==> Valid(Insert(st, e).store)
  {
    var r := Insert(st, e);
    if r.Inserted? {
      var rows := r.store.rows;
      var n := |st.rows|;
      forall i, j | 0 <= i < j < |rows|
        ensures (rows[i].externalCandidateId, rows[i].crisilOfferId)
             != (rows[j].externalCandidateId, rows[j].crisilOfferId)
      {
        if j == n {
          assert rows[i] == st.rows[i];
        } else {
          assert rows[i] == st.rows[i] && rows[j] == st.rows[j];
        }
      }
      forall i | 0 <= i < |rows| ensures 1 <= rows[i].id < r.store.nextId {
        if i < n {
          assert rows[i] == st.rows[i];
        }
      }
      forall i, j | 0 <= i < j < |rows| ensures rows[i].id != rows[j].id {
        if j < n {
          assert rows[i] == st.rows[i] && rows[j] == st.rows[j];
        } else {
          assert rows[i] == st.rows[i];
        }
      }
    }
  }

  /** Once a key pair is stored, inserting it again is refused. */
  lemma InsertTwiceIsDuplicate(st: Store, e: Entity, f: Entity)
    requires Insert(st, e).Inserted?
    requires f.externalCandidateId == e.externalCandidateId && f.crisilOfferId == e.crisilOfferId
    ensures Insert(Insert(st, e).store, f).DuplicateKey?
  {
    var st' := Insert(st, e).store;
    assert st'.rows[|st.rows|].externalCandidateId == e.externalCandidateId;
  }

  /** The inserted row is found under its new id, with the contents given. */
  lemma InsertThenFind(st: Store, e: Entity)
    requires Valid(st)
    requires Insert(st, e).Inserted?
    ensures FindById(Insert(st, e).store, Insert(st, e).id) == Some(e.(id := Insert(st, e).id))
  {
    var r := Insert(st, e);
    InsertPreservesValid(st, e);
    FindLast(st.rows, e.(id := r.id));
    assert r.store.rows == st.rows + [e.(id := r.id)];
  }

  /** Rows already stored keep being found, unchanged, after an insert. */
  lemma InsertKeepsRows(st: Store, e: Entity, id: int)
    requires Valid(st)
    requires Insert(st, e).Inserted?
    requires HasId(st, id)
    ensures FindById(Insert(st, e).store, id) == FindById(st, id)
  {
    var r := Insert(st, e);
    var rows := r.store.rows;
    var n := |st.rows|;
    assert forall i :: 0 <= i < n ==> rows[i] == st.rows[i];
    FindPrefix(st.rows, [e.(id := r.id)], id);
    assert rows == st.rows + [e.(id := r.id)];
  }

  /** In a valid table every stored row is found by its own id: ids are
      distinct, so the first match is that row. */
  lemma FindStored(st: Store, k: int)
    requires Valid(st)
    requires 0 <= k < |st.rows|
    ensures FindById(st, st.rows[k].id) == Some(st.rows[k])
  {
    var r := FindById(st, st.rows[k].id);
    assert HasId(st, st.rows[k].id);
    var j :| 0 <= j < |st.rows| && st.rows[j] == r.value;
    assert j == k;
  }

  lemma {:induction false} FindPrefix(a: seq<Entity>, b: seq<Entity>, id: int)
    requires exists i | 0 <= i < |a| :: a[i].id == id
    ensures FindFrom(a + b, id) == FindFrom(a, id)
  {
    if a[0].id != id {
      assert (a + b)[1..] == a[1..] + b;
      var i :| 0 <= i < |a| && a[i].id == id;
      assert a[1..][i - 1].id == id;
      FindPrefix(a[1..], b, id);
    }
  }

  lemma {:induction false} FindLast(a: seq<Entity>, x: Entity)
    requires forall i :: 0 <= i < |a| ==> a[i].id != x.id
    ensures FindFrom(a + [x], x.id) == Some(x)
  {
    if |a| > 0 {
      assert (a + [x])[1..] == a[1..] + [x];
      FindLast(a[1..], x);
    }
  }
}
