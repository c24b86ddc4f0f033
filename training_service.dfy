/**
 * `TrainingService`: the in-memory training catalog, with fresh-id allocation
 * (`max(ids, 0) + 1`), append and first-match lookup by id.
 */
module Trainings {
  import opened Wrappers

  /** A catalog entry. The source's `type` field is `kind` here (`type` is a Dafny keyword). */
  datatype Training = Training(id: int, name: string, kind: string, language: string)

  const DefaultKind: string := "Instruire tip MODULE SCORM"
  const DefaultLanguage: string := "ro/en"

  /** The three entries the catalog starts with. */
  const InitialCatalog: seq<Training> := [
    Training(438, "DEMO - Instruire telefonic\U{103} 8 module", DefaultKind, DefaultLanguage),
    Training(436, "Demo - instruire birou", DefaultKind, DefaultLanguage),
    Training(209, "exemplu Instruire SSM-SU - presentare cu test", DefaultKind, DefaultLanguage)
  ]

  function Max(a: int, b: int): int {
    if a < b then b else a
  }

  /** `Math.max(...ids, 0)`: the largest id, or 0 when there is none larger. */
  function MaxId(ts: seq<Training>): (m: int)
    ensures m >= 0
    ensures forall i :: 0 <= i < |ts| ==> ts[i].id <= m
    ensures m == 0 || exists i :: 0 <= i < |ts| && ts[i].id == m
  {
    if ts == [] then 0 else Max(ts[0].id, MaxId(ts[1..]))
  }

  /** The id `addTraining` gives the next entry. */
  function NextId(ts: seq<Training>): (r: int)
    ensures r >= 1
    ensures forall i :: 0 <= i < |ts| ==> ts[i].id < r
  {
    MaxId(ts) + 1
  }

  /** An empty catalog starts at 1, and the initial catalog continues at 439. */
  lemma NextIdExamples()
    ensures NextId([]) == 1
    ensures NextId(InitialCatalog) == 439
  {
    assert InitialCatalog[1..][1..][1..] == [];
    assert MaxId(InitialCatalog[1..][1..]) == 209;
  }

  /** No two entries share an id. */
  predicate DistinctIds(ts: seq<Training>) {
    forall i, j :: 0 <= i < j < |ts| ==> ts[i].id != ts[j].id
  }

  /** `find(t => t.id === id)`: the first entry with that id. */
  function FindById(ts: seq<Training>, id: int): (r: Option<Training>)
    ensures r.None? <==> forall i :: 0 <= i < |ts| ==> ts[i].id != id
    ensures r.Some? ==> exists i :: 0 <= i < |ts| && ts[i] == r.value && r.value.id == id
                                   && forall j :: 0 <= j < i ==> ts[j].id != id
  {
    if ts == [] then None
    else if ts[0].id == id then Some(ts[0])
    else
      var rest := FindById(ts[1..], id);
      assert rest.Some? ==> exists i :: 0 < i < |ts| && ts[i] == rest.value && rest.value.id == id
                                       && forall j :: 0 <= j < i ==> ts[j].id != id by {
        if rest.Some? {
          var k :| 0 <= k < |ts[1..]| && ts[1..][k] == rest.value && rest.value.id == id
                   && forall j :: 0 <= j < k ==> ts[1..][j].id != id;
          assert ts[k + 1] == rest.value;
          forall j | 0 <= j < k + 1 ensures ts[j].id != id {
            if j > 0 {
              assert ts[j] == ts[1..][j - 1];
            }
          }
        }
      }
      rest
  }

  /** Appending an entry with the next id keeps ids distinct. */
  lemma AppendKeepsDistinct(ts: seq<Training>, t: Training)
    requires DistinctIds(ts)
    requires t.id == NextId(ts)
    ensures DistinctIds(ts + [t])
  {
    var ts' := ts + [t];
    forall i, j | 0 <= i < j < |ts'| ensures ts'[i].id != ts'[j].id {
      if j == |ts| {
        assert ts'[i] == ts[i];
      } else {
        assert ts'[i] == ts[i] && ts'[j] == ts[j];
      }
    }
  }

  /** After appending an entry whose id is at least the next id, looking that id up finds
      the new entry, and every other lookup is as before. */
  lemma {:induction false} FindAfterAppend(ts: seq<Training>, t: Training, id: int)
    requires t.id >= NextId(ts)
    ensures FindById(ts + [t], t.id) == Some(t)
    ensures id != t.id ==> FindById(ts + [t], id) == FindById(ts, id)
    decreases |ts|
  {
    if ts == [] {
      assert FindById([t], t.id) == Some(t);
    } else {
      assert (ts + [t])[0] == ts[0];
      assert (ts + [t])[1..] == ts[1..] + [t];
      assert NextId(ts[1..]) <= NextId(ts);
      FindAfterAppend(ts[1..], t, id);
    }
  }

  /** The service keeps its catalog as a list that `AddTraining` extends in place. */
  class TrainingService {
    var trainings: seq<Training>

    /** Ids in the catalog stay distinct. */
    predicate Valid()
      reads this
    {
      DistinctIds(trainings)
    }

    constructor ()
      ensures trainings == InitialCatalog
      ensures Valid()
    {
      trainings := InitialCatalog;
    }

    /** `getTrainings`. */
    method GetTrainings() returns (r: seq<Training>)
      ensures r == trainings
    {
      r := trainings;
    }

    /** `addTraining(name, type = 'Instruire tip MODULE SCORM', language = 'ro/en')`: appends one
        entry with an id larger than every existing one and returns it. */
    method AddTraining(name: string, kind: string := DefaultKind, language: string := DefaultLanguage)
      returns (added: Training)
      requires Valid()
      modifies this
      ensures added == Training(NextId(old(trainings)), name, kind, language)
      ensures trainings == old(trainings) + [added]
      ensures Valid()
      ensures FindById(trainings, added.id) == Some(added)
    {
      var newId := MaxId(trainings) + 1;
      added := Training(newId, name, kind, language);
      AppendKeepsDistinct(trainings, added);
      FindAfterAppend(trainings, added, added.id);
      trainings := trainings + [added];
    }

    /** `getTrainingById`: the first entry with that id, or `undefined` (None). */
    method GetTrainingById(id: int) returns (r: Option<Training>)
      ensures r == FindById(trainings, id)
      ensures r.Some? ==> r.value in trainings && r.value.id == id
    {
      r := FindById(trainings, id);
    }
  }

  /** Adding with only a name uses the default type and language, and the first addition
      to the initial catalog gets id 439. */
  method AddToInitialCatalog(name: string) returns (added: Training)
    ensures added == Training(439, name, DefaultKind, DefaultLanguage)
  {
    var service := new TrainingService();
    assert DistinctIds(InitialCatalog);
    NextIdExamples();
    added := service.AddTraining(name);
  }
}
