/** The durable artifact catalog of a Session, as an append-only list. */
module SessionCatalog {
  import opened Outcomes

  /** The fixed identifiers of the deployment; `Controller` stands for every id with the reserved
      prefix `controller-`, and `Other` for the rest. */
  datatype Id =
    | PolicyId | HilId | RecoveryId | QualificationId | SnapshotId | FirmwareId
    | Controller(suffix: string) | Other(name: string)

  /** The fixed kind, path, media type and producer of each document, and any other combination. */
  datatype Form =
    | PolicyForm | HilForm | RecoveryForm | QualificationForm | SnapshotForm | FirmwareForm
    | RequestForm(path: string) | AbortPlanForm(path: string) | DriverEventForm(path: string) | ForeignForm(name: string)

  datatype Artifact = Artifact(id: Id, form: Form, inputs: seq<Id>, content: string, sha256: string)

  type Catalog = seq<Artifact>

  /** The first artifact with the id. */
  function Find(c: Catalog, id: Id): Option<Artifact> {
    if c == [] then None else if c[0].id == id then Some(c[0]) else Find(c[1..], id)
  }

  predicate Contains(c: Catalog, id: Id) {
    Find(c, id).Some?
  }

  lemma {:induction false} FindFinds(c: Catalog, id: Id)
    ensures Contains(c, id) <==> exists i :: 0 <= i < |c| && c[i].id == id
    ensures Contains(c, id) ==> Find(c, id).value in c && Find(c, id).value.id == id
  {
    if c != [] && c[0].id != id {
      FindFinds(c[1..], id);
      if i :| 0 <= i < |c| && c[i].id == id { assert c[1..][i - 1].id == id; }
      if i :| 0 <= i < |c[1..]| && c[1..][i].id == id { assert c[i + 1].id == id; }
    }
  }

  /** Publication never changes what a lookup finds, except for an id that was absent. */
  lemma {:induction false} FindAfterAppend(c: Catalog, more: Catalog, id: Id)
    ensures Find(c + more, id) == if Contains(c, id) then Find(c, id) else Find(more, id)
  {
    if c == [] {
      assert c + more == more;
    } else {
      assert (c + more)[1..] == c[1..] + more;
      FindAfterAppend(c[1..], more, id);
    }
  }

  /** The same for one artifact whose id was absent. */
  lemma {:induction false} FindAfterOne(c: Catalog, a: Artifact, id: Id)
    requires !Contains(c, a.id)
    ensures Find(c + [a], id) == if a.id == id then Some(a) else Find(c, id)
  {
    FindAfterAppend(c, [a], id);
    FindFinds([a], id);
    assert [a][0] == a;
  }

  lemma {:induction false} ContainsAfterAppend(c: Catalog, more: Catalog, id: Id)
    ensures Contains(c + more, id) <==> Contains(c, id) || Contains(more, id)
  {
    FindAfterAppend(c, more, id);
  }

  // ---------------------------------------------------------------- what every catalog keeps

  ghost predicate UniqueIds(c: Catalog) {
    forall i, j :: 0 <= i < j < |c| ==> c[i].id != c[j].id
  }

  /** Every input of an artifact was published before it. */
  ghost predicate ClosedUnderInputs(c: Catalog) {
    forall i, input :: 0 <= i < |c| && input in c[i].inputs ==> Contains(c[..i], input)
  }

  ghost predicate WellFormed(c: Catalog) {
    UniqueIds(c) && ClosedUnderInputs(c)
  }

  lemma {:induction false} PublishKeepsWellFormed(c: Catalog, a: Artifact)
    requires WellFormed(c) && !Contains(c, a.id) && forall input :: input in a.inputs ==> Contains(c, input)
    ensures WellFormed(c + [a])
  {
    var all := c + [a];
    FindFinds(c, a.id);
    forall i, input | 0 <= i < |all| && input in all[i].inputs ensures Contains(all[..i], input) {
      if i < |c| {
        assert all[..i] == c[..i];
      } else {
        assert all[..i] == c;
      }
    }
    assert all[|c|] == a && forall i :: 0 <= i < |c| ==> all[i] == c[i];
  }

  lemma {:induction false} FindUnique(c: Catalog, i: nat)
    requires UniqueIds(c) && i < |c|
    ensures Find(c, c[i].id) == Some(c[i])
  {
    FindFinds(c, c[i].id);
    var j :| 0 <= j < |c| && c[j] == Find(c, c[i].id).value;
  }
}
