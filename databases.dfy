/**
 * The collection of BLAST databases known to the server, keyed by id in the
 * order they were added, and the retrieval of sequences for a list of loci
 * from them.
 */
module Databases {
  import opened Wrappers
  import opened Text
  import opened Links

  /** `database[accession, coords]`: the sequence the database holds for the locus, if any. */
  type Lookup = (Database, Option<string>, Option<string>) -> Option<string>

  // ---------------------------------------------------------------- loci

  /** The fields that are not empty, in order. */
  function NonEmpty(parts: seq<string>): (r: seq<string>)
    ensures forall i :: 0 <= i < |r| ==> r[i] != ""
    ensures forall x :: x in r <==> x in parts && x != ""
    ensures (forall i :: 0 <= i < |parts| ==> parts[i] != "") ==> r == parts
  {
    if parts == [] then []
    else (if parts[0] == "" then [] else [parts[0]]) + NonEmpty(parts[1..])
  }

  /** `loci.split(',').delete_if(&:empty?)`. */
  function Loci(s: string): (r: seq<string>)
    ensures forall i :: 0 <= i < |r| ==> r[i] != "" && ',' !in r[i]
  {
    var parts := Split(s, ',');
    assert forall x :: x in parts ==> ',' !in x;
    NonEmpty(parts)
  }

  /** Loci joined by commas split back into the same loci. */
  lemma LociJoin(loci: seq<string>)
    requires forall i :: 0 <= i < |loci| ==> loci[i] != "" && ',' !in loci[i]
    ensures Loci(Join(loci, ",")) == loci
  {
    if loci == [] {
      assert Fields("", ',') == [""];
    } else {
      JoinFields(loci, ',');
    }
  }

  /** `accession, coords = locus.split(':')`: the first two fields, `nil` where there are fewer. */
  function LocusParts(locus: string): (r: (Option<string>, Option<string>))
    ensures r.0.Some? ==> ':' !in r.0.value
    ensures r.1.Some? ==> r.0.Some? && ':' !in r.1.value
  {
    var parts := Split(locus, ':');
    (if |parts| > 0 then Some(parts[0]) else None, if |parts| > 1 then Some(parts[1]) else None)
  }

  /** The accession is the whole locus when it has no colon. */
  lemma PlainAccession(locus: string)
    requires locus != "" && ':' !in locus
    ensures LocusParts(locus) == (Some(locus), None)
  {
    assert Fields(locus, ':') == [locus];
  }

  /** A locus `accession:coords` is taken apart into both. */
  lemma AccessionAndCoords(accession: string, coords: string)
    requires accession != "" && coords != "" && ':' !in accession && ':' !in coords
    ensures LocusParts(accession + ":" + coords) == (Some(accession), Some(coords))
  {
    JoinFields([accession, coords], ':');
    assert Join([accession, coords], [':']) == accession + ":" + coords;
  }

  // ---------------------------------------------------------------- retrieval

  /** The databases from the `j`-th on are asked in turn; the first that holds the locus answers. */
  function FirstFound(dbs: seq<Database>, j: nat, accession: Option<string>, coords: Option<string>, lookup: Lookup): (r: Option<string>)
    requires j <= |dbs|
    ensures r.Some? ==> exists i :: j <= i < |dbs| && lookup(dbs[i], accession, coords) == r
                                    && forall h :: j <= h < i ==> lookup(dbs[h], accession, coords).None?
    ensures r.None? <==> forall i :: j <= i < |dbs| ==> lookup(dbs[i], accession, coords).None?
    decreases |dbs| - j
  {
    if j == |dbs| then None
    else if lookup(dbs[j], accession, coords).Some? then lookup(dbs[j], accession, coords)
    else FirstFound(dbs, j + 1, accession, coords, lookup)
  }

  /** Databases after the one that answers are never consulted. */
  lemma {:induction false} LaterIgnored(dbs: seq<Database>, more: seq<Database>, j: nat, accession: Option<string>, coords: Option<string>, lookup: Lookup)
    requires j <= |dbs|
    requires FirstFound(dbs, j, accession, coords, lookup).Some?
    ensures FirstFound(dbs + more, j, accession, coords, lookup) == FirstFound(dbs, j, accession, coords, lookup)
    decreases |dbs| - j
  {
    assert (dbs + more)[j] == dbs[j];
    if lookup(dbs[j], accession, coords).None? {
      LaterIgnored(dbs, more, j + 1, accession, coords, lookup);
    }
  }

  function NotFound(locus: string): string
  {
    "# ERROR: " + locus + " not found in any database"
  }

  /** What stands for one locus in the answer: its sequence, or a comment saying it was not found. */
  function Entry(dbs: seq<Database>, locus: string, lookup: Lookup): string
  {
    match FirstFound(dbs, 0, LocusParts(locus).0, LocusParts(locus).1, lookup)
    case Some(found) => found
    case None => NotFound(locus)
  }

  /** A locus some database holds gets the sequence of the first such database; any other gets the comment. */
  lemma EntryFound(dbs: seq<Database>, locus: string, lookup: Lookup)
    ensures (forall i :: 0 <= i < |dbs| ==> lookup(dbs[i], LocusParts(locus).0, LocusParts(locus).1).None?)
            ==> Entry(dbs, locus, lookup) == NotFound(locus)
    ensures forall i :: 0 <= i < |dbs| && lookup(dbs[i], LocusParts(locus).0, LocusParts(locus).1).Some?
                        && (forall h :: 0 <= h < i ==> lookup(dbs[h], LocusParts(locus).0, LocusParts(locus).1).None?)
                        ==> Some(Entry(dbs, locus, lookup)) == lookup(dbs[i], LocusParts(locus).0, LocusParts(locus).1)
  {
    var (accession, coords) := LocusParts(locus);
    forall i | 0 <= i < |dbs| && lookup(dbs[i], accession, coords).Some?
                 && (forall h :: 0 <= h < i ==> lookup(dbs[h], accession, coords).None?)
      ensures Some(Entry(dbs, locus, lookup)) == lookup(dbs[i], accession, coords)
    {
      FirstMatchUnique(dbs, 0, i, accession, coords, lookup);
    }
  }

  lemma {:induction false} FirstMatchUnique(dbs: seq<Database>, j: nat, i: nat, accession: Option<string>, coords: Option<string>, lookup: Lookup)
    requires j <= i < |dbs| && lookup(dbs[i], accession, coords).Some?
    requires forall h :: j <= h < i ==> lookup(dbs[h], accession, coords).None?
    ensures FirstFound(dbs, j, accession, coords, lookup) == lookup(dbs[i], accession, coords)
    decreases i - j
  {
    if j < i {
      FirstMatchUnique(dbs, j + 1, i, accession, coords, lookup);
    }
  }

  function Entries(dbs: seq<Database>, loci: seq<string>, lookup: Lookup): (r: seq<string>)
    ensures |r| == |loci| && forall i :: 0 <= i < |loci| ==> r[i] == Entry(dbs, loci[i], lookup)
  {
    if loci == [] then [] else Entries(dbs, loci[..|loci| - 1], lookup) + [Entry(dbs, loci[|loci| - 1], lookup)]
  }

  lemma EntriesStep(dbs: seq<Database>, loci: seq<string>, k: nat, lookup: Lookup)
    requires k < |loci|
    ensures Entries(dbs, loci[..k + 1], lookup) == Entries(dbs, loci[..k], lookup) + [Entry(dbs, loci[k], lookup)]
  {
    assert loci[..k + 1][..k] == loci[..k];
  }

  /** `retrieve`: nothing for no loci; otherwise one entry per locus, in the order asked, one per line. */
  function RetrieveOf(loci: Option<string>, dbs: seq<Database>, lookup: Lookup): (r: Option<string>)
    ensures r.None? <==> loci.None?
    ensures loci.Some? ==> r.value == Join(Entries(dbs, Loci(loci.value), lookup), "\n")
  {
    match loci
    case None => None
    case Some(s) => Some(Join(Entries(dbs, Loci(s), lookup), "\n"))
  }

  /** With no database at all, every locus is reported missing. */
  lemma NothingFoundWithoutDatabases(loci: string, lookup: Lookup)
    ensures RetrieveOf(Some(loci), [], lookup) == Some(Join(NotFounds(Loci(loci)), "\n"))
  {
    var e := Entries([], Loci(loci), lookup);
    assert e == NotFounds(Loci(loci));
  }

  function NotFounds(loci: seq<string>): (r: seq<string>)
    ensures |r| == |loci| && forall i :: 0 <= i < |loci| ==> r[i] == NotFound(loci[i])
  {
    if loci == [] then [] else NotFounds(loci[..|loci| - 1]) + [NotFound(loci[|loci| - 1])]
  }

  /** The databases the collection lists, in its order. */
  function ValuesOf(keys: seq<string>, m: map<string, Database>): (r: seq<Database>)
    requires forall i :: 0 <= i < |keys| ==> keys[i] in m
    ensures |r| == |keys| && forall i :: 0 <= i < |keys| ==> r[i] == m[keys[i]]
  {
    if keys == [] then [] else [m[keys[0]]] + ValuesOf(keys[1..], m)
  }

  /** `values_at`: what each id maps to, `nil` for an unknown id. */
  function ValuesAt(m: map<string, Database>, ids: seq<string>): (r: seq<Option<Database>>)
    ensures |r| == |ids|
    ensures forall i :: 0 <= i < |ids| ==> (r[i].Some? <==> ids[i] in m)
    ensures forall i :: 0 <= i < |ids| && ids[i] in m ==> r[i] == Some(m[ids[i]])
  {
    if ids == [] then []
    else [if ids[0] in m then Some(m[ids[0]]) else None] + ValuesAt(m, ids[1..])
  }

  predicate Distinct(s: seq<string>)
  {
    forall i, j :: 0 <= i < j < |s| ==> s[i] != s[j]
  }

  /** The inner loop of `retrieve`: each database in turn until one holds the locus. */
  method FindIn(dbs: seq<Database>, accession: Option<string>, coords: Option<string>, lookup: Lookup) returns (found: Option<string>)
    ensures found == FirstFound(dbs, 0, accession, coords, lookup)
  {
    found := None;
    var j := 0;
    while j < |dbs|
      invariant j <= |dbs|
      invariant found.None? && FirstFound(dbs, 0, accession, coords, lookup) == FirstFound(dbs, j, accession, coords, lookup)
    {
      found := lookup(dbs[j], accession, coords);
      if found.Some? {
        break;
      }
      j := j + 1;
    }
  }

  /** The collection of databases: a hash from id to database that remembers insertion order. */
  class DatabaseCollection {
    var order: seq<string>
    var collection: map<string, Database>

    /** Each id listed once, the listed ids are the keys, and every database is stored under its own id. */
    ghost predicate Valid()
      reads this
    {
      Distinct(order)
      && (forall k :: k in collection <==> k in order)
      && (forall k :: k in collection ==> collection[k].id == k)
    }

    constructor()
      ensures Valid() && order == [] && collection == map[]
    {
      order := [];
      collection := map[];
    }

    /** `<<`: stores the database under its id, replacing one already there without moving it. */
    method Add(db: Database)
      requires Valid()
      modifies this
      ensures Valid()
      ensures collection == old(collection)[db.id := db]
      ensures order == if db.id in old(collection) then old(order) else old(order) + [db.id]
    {
      if db.id !in collection {
        order := order + [db.id];
      }
      collection := collection[db.id := db];
    }

    /** `[]`: the databases for the ids, in the order asked, `nil` for an unknown one. */
    function Get(ids: seq<string>): (r: seq<Option<Database>>)
      reads this
      ensures |r| == |ids|
      ensures forall i :: 0 <= i < |ids| ==> (r[i].Some? <==> ids[i] in collection)
      ensures forall i :: 0 <= i < |ids| && ids[i] in collection ==> r[i].value.id == ids[i]
      ensures forall i :: 0 <= i < |ids| && ids[i] in collection ==> r[i].value == collection[ids[i]]
      requires Valid()
    {
      ValuesAt(collection, ids)
    }

    /** `ids`: the keys, in the order first added. */
    function Ids(): (r: seq<string>)
      reads this
      requires Valid()
      ensures Distinct(r) && forall k :: k in r <==> k in collection
    {
      order
    }

    /** `all`: the databases, in the same order as their ids. */
    function All(): (r: seq<Database>)
      reads this
      requires Valid()
      ensures |r| == |Ids()| && forall i :: 0 <= i < |r| ==> r[i].id == Ids()[i] && r[i] == collection[Ids()[i]]
    {
      ValuesOf(order, collection)
    }

    /** `clear`: no databases any more. */
    method Clear()
      modifies this
      ensures Valid() && Ids() == [] && All() == []
    {
      order := [];
      collection := map[];
    }

    /** `retrieve`, as the loop over the loci with the inner loop over the databases that stops at the first match. */
    method Retrieve(loci: Option<string>, lookup: Lookup) returns (r: Option<string>)
      requires Valid()
      ensures r == RetrieveOf(loci, All(), lookup)
    {
      if loci.None? {
        return None;
      }
      var parts := Loci(loci.value);
      var dbs := All();
      var seqs: seq<string> := [];
      var k := 0;
      while k < |parts|
        invariant k <= |parts|
        invariant seqs == Entries(dbs, parts[..k], lookup)
      {
        var locus := parts[k];
        var parsed := LocusParts(locus);
        var found := FindIn(dbs, parsed.0, parsed.1, lookup);
        if found.None? {
          found := Some(NotFound(locus));
        }
        assert found.value == Entry(dbs, locus, lookup);
        EntriesStep(dbs, parts, k, lookup);
        seqs := seqs + [found.value];
        k := k + 1;
      }
      assert parts[..k] == parts;
      return Some(Join(seqs, "\n"));
    }
  }
}
