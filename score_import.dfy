/** The per-class score import of the database seeding script (Vis4T_be/init_db.py, lines
    192-295). The database reads become inputs: each class's subjects and students, every
    subject, the (student, subject) pairs already stored, and the parsed score file. The
    model ends at the two batch lists the script hands to `bulk_create` and to the
    many-to-many `add`. */
module ScoreImport {
  import opened Wrappers
  import Text

  /** A `Subject` row: its primary key and its name. */
  datatype Subject = Subject(pk: nat, name: string)

  /** One object of a student's list in the score file: `subject_name` and `score_10`,
      either of which may be missing. */
  datatype ScoreRow = ScoreRow(subjectName: Option<string>, score: Option<real>)

  /** A queued `Subject_student(student, subject, score_10)`. Students are their primary keys. */
  datatype Record = Record(student: nat, subject: Subject, score: real)

  /** The two batch lists, and whether the script died (a `KeyError` on a row without
      `subject_name`) before finishing. */
  datatype Batch = Batch(records: seq<Record>, pairs: seq<(nat, Subject)>, crashed: bool)

  const EmptyBatch: Batch := Batch([], [], false)

  /** What the script reads for one class. */
  datatype ClassData = ClassData(
    subjects: seq<Subject>,                     // the class's `Subject_class` rows, in query order
    students: map<string, nat>,                 // `student_id` to student, for the class
    scores: seq<(string, seq<ScoreRow>)>,        // the score file's entries, in file order
    existing: set<(nat, nat)>)                  // (student, subject) pairs already stored

  /** How loading a class ended: not in the database, no score file, a score file that is not
      valid JSON, or loaded. */
  datatype ClassLoad = ClassMissing | ScoreFileMissing | ScoreFileInvalid | Loaded(data: ClassData)

  datatype ClassSource = ClassSource(className: string, load: ClassLoad)

  // ---------------------------------------------------------------------------------------
  // Lookup dictionaries (lines 216-226): insertion-ordered, keyed by stripped, lower-cased name

  type SubjectDict = seq<(string, Subject)>

  /** `name.strip().lower()`. */
  function SubjectKey(name: string): string
  {
    Text.Lower(Text.PyStrip(name))
  }

  function Keys(d: SubjectDict): (r: seq<string>)
    ensures |r| == |d| && forall i :: 0 <= i < |d| ==> r[i] == d[i].0
  {
    seq(|d|, i requires 0 <= i < |d| => d[i].0)
  }

  /** `d.get(key)`. */
  function DictGet(d: SubjectDict, key: string): Option<Subject>
  {
    if |d| == 0 then None else if d[0].0 == key then Some(d[0].1) else DictGet(d[1..], key)
  }

  /** `d[key] = value`: an existing key keeps its position and takes the new value; a new key
      goes last. */
  function DictPut(d: SubjectDict, key: string, value: Subject): SubjectDict
  {
    if |d| == 0 then [(key, value)]
    else if d[0].0 == key then [(key, value)] + d[1..]
    else [d[0]] + DictPut(d[1..], key, value)
  }

  lemma KeysCons(d: SubjectDict)
    requires |d| > 0
    ensures Keys(d) == [d[0].0] + Keys(d[1..])
  {
    assert forall i :: 0 <= i < |d| - 1 ==> d[1..][i] == d[i + 1];
  }

  /** After `d[key] = value` the keys are those of `d`, with `key` appended when it is new. */
  lemma {:induction false} DictPutKeys(d: SubjectDict, key: string, value: Subject)
    ensures Keys(DictPut(d, key, value)) == if key in Keys(d) then Keys(d) else Keys(d) + [key]
    decreases |d|
  {
    if |d| > 0 {
      var r := DictPut(d, key, value);
      KeysCons(d);
      KeysCons(r);
      if d[0].0 == key {
        assert r[1..] == d[1..];
        assert key in Keys(d);
      } else {
        var rest := DictPut(d[1..], key, value);
        assert r[1..] == rest;
        DictPutKeys(d[1..], key, value);
        assert key in Keys(d) <==> key in Keys(d[1..]);
        if key in Keys(d[1..]) {
          assert Keys(r) == Keys(d);
        } else {
          assert Keys(r) == [d[0].0] + (Keys(d[1..]) + [key]);
          assert Keys(r) == Keys(d) + [key];
        }
      }
    }
  }

  /** After `d[key] = value`, `key` reads `value` and every other key reads as before. */
  lemma {:induction false} DictPutGet(d: SubjectDict, key: string, value: Subject, k: string)
    ensures DictGet(DictPut(d, key, value), k) == if k == key then Some(value) else DictGet(d, k)
    decreases |d|
  {
    if |d| > 0 {
      var r := DictPut(d, key, value);
      if d[0].0 == key {
        assert r[1..] == d[1..];
      } else {
        assert r[1..] == DictPut(d[1..], key, value);
        DictPutGet(d[1..], key, value, k);
      }
    }
  }

  /** `{s.subject_name.strip().lower(): s for s in subjects}`. */
  function SubjectDictOf(subjects: seq<Subject>): SubjectDict
  {
    if |subjects| == 0 then []
    else
      var last := subjects[|subjects| - 1];
      DictPut(SubjectDictOf(subjects[..|subjects| - 1]), SubjectKey(last.name), last)
  }

  /** The last subject with key `key`: the one a dictionary comprehension keeps. */
  function LastWithKey(subjects: seq<Subject>, key: string): Option<Subject>
  {
    if |subjects| == 0 then None
    else if SubjectKey(subjects[|subjects| - 1].name) == key then Some(subjects[|subjects| - 1])
    else LastWithKey(subjects[..|subjects| - 1], key)
  }

  /** The distinct keys of `subjects`, in the order they first occur. */
  function FirstOccurrenceKeys(subjects: seq<Subject>): seq<string>
  {
    if |subjects| == 0 then []
    else
      var prev := FirstOccurrenceKeys(subjects[..|subjects| - 1]);
      var key := SubjectKey(subjects[|subjects| - 1].name);
      if key in prev then prev else prev + [key]
  }

  /** The lookup dictionary maps every key to the LAST subject carrying it, and lists its
      keys once each, in the order they first occur. */
  lemma {:induction false} SubjectDictOfSpec(subjects: seq<Subject>)
    ensures forall k :: DictGet(SubjectDictOf(subjects), k) == LastWithKey(subjects, k)
    ensures Keys(SubjectDictOf(subjects)) == FirstOccurrenceKeys(subjects)
  {
    if |subjects| > 0 {
      var prefix := subjects[..|subjects| - 1];
      var last := subjects[|subjects| - 1];
      SubjectDictOfSpec(prefix);
      DictPutKeys(SubjectDictOf(prefix), SubjectKey(last.name), last);
      forall k ensures DictGet(SubjectDictOf(subjects), k) == LastWithKey(subjects, k) {
        DictPutGet(SubjectDictOf(prefix), SubjectKey(last.name), last, k);
      }
    }
  }

  /** No key appears twice in a lookup dictionary. */
  lemma {:induction false} SubjectDictKeysDistinct(subjects: seq<Subject>)
    ensures forall i, j :: 0 <= i < j < |SubjectDictOf(subjects)| ==>
              SubjectDictOf(subjects)[i].0 != SubjectDictOf(subjects)[j].0
  {
    if |subjects| > 0 {
      var prefix := subjects[..|subjects| - 1];
      SubjectDictKeysDistinct(prefix);
      var d := SubjectDictOf(prefix);
      var key := SubjectKey(subjects[|subjects| - 1].name);
      var r := SubjectDictOf(subjects);
      DictPutKeys(d, key, subjects[|subjects| - 1]);
      assert Keys(r) == if key in Keys(d) then Keys(d) else Keys(d) + [key];
      forall i, j | 0 <= i < j < |r| ensures r[i].0 != r[j].0 {
        assert Keys(r)[i] == r[i].0 && Keys(r)[j] == r[j].0;
        if !(key in Keys(d)) && j == |d| {
          assert Keys(d)[i] == Keys(r)[i];
        } else {
          assert Keys(d)[i] == Keys(r)[i] && Keys(d)[j] == Keys(r)[j];
        }
      }
    }
  }

  // ---------------------------------------------------------------------------------------
  // Subject resolution (lines 250-265)

  /** `query in name or name in query`. */
  predicate PartialHit(name: string, query: string)
  {
    Text.Contains(name, query) || Text.Contains(query, name)
  }

  /** The first entry of `d`, in iteration order, whose key partially matches `query`. */
  function FirstPartial(d: SubjectDict, query: string): (r: Option<Subject>)
    ensures r.None? <==> forall i :: 0 <= i < |d| ==> !PartialHit(d[i].0, query)
    ensures r.Some? ==> exists i :: 0 <= i < |d| && PartialHit(d[i].0, query) && r.value == d[i].1
                                    && forall j :: 0 <= j < i ==> !PartialHit(d[j].0, query)
  {
    if |d| == 0 then None
    else if PartialHit(d[0].0, query) then Some(d[0].1)
    else
      var r := FirstPartial(d[1..], query);
      assert forall i :: 1 <= i < |d| ==> d[i] == d[1..][i - 1];
      if r.Some? then
        ghost var i :| 0 <= i < |d| - 1 && PartialHit(d[1..][i].0, query) && r.value == d[1..][i].1
                       && forall j :: 0 <= j < i ==> !PartialHit(d[1..][j].0, query);
        assert forall j :: 0 <= j < i + 1 ==> !PartialHit(d[j].0, query) by {
          forall j | 0 <= j < i + 1 ensures !PartialHit(d[j].0, query) {
            if j > 0 { assert d[j] == d[1..][j - 1]; }
          }
        }
        r
      else r
  }

  /** The subject a row's name resolves to: exact match among the class's subjects, then
      exact match among all subjects, then the first partial match among all subjects. */
  function Resolve(classDict: SubjectDict, allDict: SubjectDict, subjectName: string): Option<Subject>
  {
    var key := SubjectKey(subjectName);
    match DictGet(classDict, key)
    case Some(s) => Some(s)
    case None =>
      match DictGet(allDict, key)
      case Some(s) => Some(s)
      case None => FirstPartial(allDict, key)
  }

  /** The resolution order, over the dictionaries built from the class's subjects and from
      all subjects: a class subject with the same key wins; otherwise the last subject with
      that key; otherwise the first key in iteration order that contains the name or is
      contained in it; otherwise nothing. */
  lemma ResolutionOrder(classSubjects: seq<Subject>, allSubjects: seq<Subject>, subjectName: string)
    ensures var key := SubjectKey(subjectName);
            var r := Resolve(SubjectDictOf(classSubjects), SubjectDictOf(allSubjects), subjectName);
            && (LastWithKey(classSubjects, key).Some? ==> r == LastWithKey(classSubjects, key))
            && (LastWithKey(classSubjects, key).None? && LastWithKey(allSubjects, key).Some? ==>
                  r == LastWithKey(allSubjects, key))
            && (LastWithKey(classSubjects, key).None? && LastWithKey(allSubjects, key).None? ==>
                  r == FirstPartial(SubjectDictOf(allSubjects), key))
  {
    SubjectDictOfSpec(classSubjects);
    SubjectDictOfSpec(allSubjects);
  }

  /** The partial-match loop with its early `break`. */
  method PartialMatch(d: SubjectDict, query: string) returns (subject: Option<Subject>)
    ensures subject == FirstPartial(d, query)
  {
    subject := None;
    var i := 0;
    while i < |d|
      invariant 0 <= i <= |d|
      invariant FirstPartial(d, query) == FirstPartial(d[i..], query)
    {
      if PartialHit(d[i].0, query) {
        subject := Some(d[i].1);
        break;
      }
      assert d[i..][1..] == d[i + 1..];
      i := i + 1;
    }
  }

  // ---------------------------------------------------------------------------------------
  // The queueing loop (lines 234-280)

  /** Appends `b` to `a`, unless the script already died during `a`. */
  function Join(a: Batch, b: Batch): Batch
  {
    if a.crashed then a else Batch(a.records + b.records, a.pairs + b.pairs, b.crashed)
  }

  /** One row of a known student: skipped when `score_10` is missing or negative; a
      `KeyError` when `subject_name` is missing; skipped when no subject resolves or the pair
      is already stored; otherwise one record and its relationship pair. */
  function RowBatch(student: nat, row: ScoreRow, classDict: SubjectDict, allDict: SubjectDict,
                    existing: set<(nat, nat)>): Batch
  {
    var score := row.score.GetOr(-1.0);
    if score < 0.0 then EmptyBatch
    else match row.subjectName
      case None => Batch([], [], true)
      case Some(name) =>
        match Resolve(classDict, allDict, name)
        case None => EmptyBatch
        case Some(subject) =>
          if (student, subject.pk) in existing then EmptyBatch
          else Batch([Record(student, subject, score)], [(student, subject)], false)
  }

  function RowsBatch(student: nat, rows: seq<ScoreRow>, classDict: SubjectDict, allDict: SubjectDict,
                     existing: set<(nat, nat)>): Batch
  {
    if |rows| == 0 then EmptyBatch
    else Join(RowsBatch(student, rows[..|rows| - 1], classDict, allDict, existing),
              RowBatch(student, rows[|rows| - 1], classDict, allDict, existing))
  }

  /** One entry of the score file: nothing when the student is not in the class. */
  function EntryBatch(entry: (string, seq<ScoreRow>), data: ClassData, classDict: SubjectDict,
                      allDict: SubjectDict): Batch
  {
    if entry.0 !in data.students then EmptyBatch
    else RowsBatch(data.students[entry.0], entry.1, classDict, allDict, data.existing)
  }

  function EntriesBatch(entries: seq<(string, seq<ScoreRow>)>, data: ClassData, classDict: SubjectDict,
                        allDict: SubjectDict): Batch
  {
    if |entries| == 0 then EmptyBatch
    else Join(EntriesBatch(entries[..|entries| - 1], data, classDict, allDict),
              EntryBatch(entries[|entries| - 1], data, classDict, allDict))
  }

  /** The batch the script builds for one loaded class. */
  function ClassBatch(data: ClassData, allSubjects: seq<Subject>): Batch
  {
    EntriesBatch(data.scores, data, SubjectDictOf(data.subjects), SubjectDictOf(allSubjects))
  }

  /** Lines 254-265: the class dictionary, then the all-subject dictionary, then the
      partial-match loop. */
  method ResolveSubject(classDict: SubjectDict, allDict: SubjectDict, subjectName: string)
    returns (subject: Option<Subject>)
    ensures subject == Resolve(classDict, allDict, subjectName)
  {
    var key := SubjectKey(subjectName);
    subject := DictGet(classDict, key);
    if subject.None? {
      subject := DictGet(allDict, key);
    }
    if subject.None? {
      subject := PartialMatch(allDict, key);
    }
  }

  /** Lines 245-280: the rows of one known student. */
  method ImportRows(student: nat, rows: seq<ScoreRow>, classDict: SubjectDict, allDict: SubjectDict,
                    existing: set<(nat, nat)>) returns (batch: Batch)
    ensures batch == RowsBatch(student, rows, classDict, allDict, existing)
  {
    var records: seq<Record> := [];
    var pairs: seq<(nat, Subject)> := [];
    var j := 0;
    while j < |rows|
      invariant 0 <= j <= |rows|
      invariant Batch(records, pairs, false) == RowsBatch(student, rows[..j], classDict, allDict, existing)
    {
      var row := rows[j];
      assert rows[..j + 1][..j] == rows[..j];
      var score := row.score.GetOr(-1.0);
      if score < 0.0 {
        j := j + 1;
        continue;
      }
      if row.subjectName.None? {
        assert RowsBatch(student, rows[..j + 1], classDict, allDict, existing) == Batch(records, pairs, true);
        RowsPrefixCrashed(student, rows, j + 1, classDict, allDict, existing);
        return Batch(records, pairs, true);
      }
      var subject := ResolveSubject(classDict, allDict, row.subjectName.value);
      if subject.None? {
        j := j + 1;
        continue;
      }
      if (student, subject.value.pk) !in existing {
        records := records + [Record(student, subject.value, score)];
        pairs := pairs + [(student, subject.value)];
      }
      j := j + 1;
    }
    assert rows[..|rows|] == rows;
    batch := Batch(records, pairs, false);
  }

  /** Lines 216-280: the lookup dictionaries, then the loop over the class's score file. */
  method ImportClass(data: ClassData, allSubjects: seq<Subject>) returns (batch: Batch)
    ensures batch == ClassBatch(data, allSubjects)
  {
    var classDict := SubjectDictOf(data.subjects);
    var allDict := SubjectDictOf(allSubjects);
    batch := ImportEntries(data, classDict, allDict);
  }

  /** Lines 238-280: the loop over the score file's entries; an unknown student is skipped. */
  method ImportEntries(data: ClassData, classDict: SubjectDict, allDict: SubjectDict) returns (batch: Batch)
    ensures batch == EntriesBatch(data.scores, data, classDict, allDict)
  {
    batch := EmptyBatch;
    var i := 0;
    while i < |data.scores|
      invariant 0 <= i <= |data.scores|
      invariant batch == EntriesBatch(data.scores[..i], data, classDict, allDict)
      invariant !batch.crashed
    {
      var entry := data.scores[i];
      assert data.scores[..i + 1][..i] == data.scores[..i];
      assert EntriesBatch(data.scores[..i + 1], data, classDict, allDict)
             == Join(batch, EntryBatch(entry, data, classDict, allDict));
      if entry.0 in data.students {
        var more := ImportRows(data.students[entry.0], entry.1, classDict, allDict, data.existing);
        batch := Join(batch, more);
        if batch.crashed {
          JoinPrefixCrashed(data.scores, i + 1, data, classDict, allDict);
          return;
        }
      }
      i := i + 1;
    }
    assert data.scores[..i] == data.scores;
  }

  /** Once the script has died, later entries change nothing. */
  lemma {:induction false} JoinPrefixCrashed(entries: seq<(string, seq<ScoreRow>)>, k: nat, data: ClassData,
                                             classDict: SubjectDict, allDict: SubjectDict)
    requires k <= |entries|
    requires EntriesBatch(entries[..k], data, classDict, allDict).crashed
    ensures EntriesBatch(entries, data, classDict, allDict) == EntriesBatch(entries[..k], data, classDict, allDict)
    decreases |entries| - k
  {
    if k < |entries| {
      var longer := entries[..k + 1];
      assert longer[..k] == entries[..k];
      assert EntriesBatch(longer, data, classDict, allDict) == EntriesBatch(entries[..k], data, classDict, allDict);
      JoinPrefixCrashed(entries, k + 1, data, classDict, allDict);
    } else {
      assert entries[..k] == entries;
    }
  }

  /** Once the script has died in a student's rows, later rows change nothing. */
  lemma {:induction false} RowsPrefixCrashed(student: nat, rows: seq<ScoreRow>, k: nat, classDict: SubjectDict,
                                             allDict: SubjectDict, existing: set<(nat, nat)>)
    requires k <= |rows|
    requires RowsBatch(student, rows[..k], classDict, allDict, existing).crashed
    ensures RowsBatch(student, rows, classDict, allDict, existing) == RowsBatch(student, rows[..k], classDict, allDict, existing)
    decreases |rows| - k
  {
    if k < |rows| {
      assert rows[..k + 1][..k] == rows[..k];
      RowsPrefixCrashed(student, rows, k + 1, classDict, allDict, existing);
    } else {
      assert rows[..k] == rows;
    }
  }

  // ---------------------------------------------------------------------------------------
  // What the batch lists hold

  /** `record` is what `row` of `student` queues: the score is present and not negative, the
      name resolves to the record's subject, and the pair is not already stored. */
  predicate RowYields(student: nat, row: ScoreRow, classDict: SubjectDict, allDict: SubjectDict,
                      existing: set<(nat, nat)>, record: Record)
  {
    && record.student == student
    && row.score == Some(record.score) && record.score >= 0.0
    && row.subjectName.Some? && Resolve(classDict, allDict, row.subjectName.value) == Some(record.subject)
    && (student, record.subject.pk) !in existing
  }

  /** Some row of `rows` queues `record`. */
  predicate FromRows(student: nat, rows: seq<ScoreRow>, classDict: SubjectDict, allDict: SubjectDict,
                     existing: set<(nat, nat)>, record: Record)
  {
    exists row :: row in rows && RowYields(student, row, classDict, allDict, existing, record)
  }

  /** Some row of a known student in `entries` queues `record`. */
  predicate FromEntries(entries: seq<(string, seq<ScoreRow>)>, data: ClassData, classDict: SubjectDict,
                        allDict: SubjectDict, record: Record)
  {
    exists e :: e in entries && e.0 in data.students
                && FromRows(data.students[e.0], e.1, classDict, allDict, data.existing, record)
  }

  /** The two lists have equal length and pair up record by record. */
  predicate Paired(b: Batch)
  {
    |b.records| == |b.pairs|
    && forall k :: 0 <= k < |b.records| ==> b.pairs[k] == (b.records[k].student, b.records[k].subject)
  }

  lemma JoinPaired(a: Batch, b: Batch)
    requires Paired(a) && Paired(b)
    ensures Paired(Join(a, b))
  {
    if !a.crashed {
      var j := Join(a, b);
      forall k | 0 <= k < |j.records| ensures j.pairs[k] == (j.records[k].student, j.records[k].subject) {
        if k >= |a.records| {
          assert j.records[k] == b.records[k - |a.records|] && j.pairs[k] == b.pairs[k - |a.records|];
        } else {
          assert j.records[k] == a.records[k] && j.pairs[k] == a.pairs[k];
        }
      }
    }
  }

  /** The rows of one student: the lists pair up, and every record is queued by one of the rows. */
  lemma {:induction false} RowsBatchSound(student: nat, rows: seq<ScoreRow>, classDict: SubjectDict,
                                          allDict: SubjectDict, existing: set<(nat, nat)>)
    ensures var b := RowsBatch(student, rows, classDict, allDict, existing);
            && Paired(b)
            && (forall k :: 0 <= k < |b.records| ==> FromRows(student, rows, classDict, allDict, existing, b.records[k]))
  {
    if |rows| > 0 {
      var prefix := rows[..|rows| - 1];
      var last := rows[|rows| - 1];
      assert rows == prefix + [last];
      RowsBatchSound(student, prefix, classDict, allDict, existing);
      var prev := RowsBatch(student, prefix, classDict, allDict, existing);
      var one := RowBatch(student, last, classDict, allDict, existing);
      var b := RowsBatch(student, rows, classDict, allDict, existing);
      assert b == Join(prev, one);
      JoinPaired(prev, one);
      forall k | 0 <= k < |b.records|
        ensures FromRows(student, rows, classDict, allDict, existing, b.records[k])
      {
        if k < |prev.records| {
          assert b.records[k] == prev.records[k];
          assert FromRows(student, prefix, classDict, allDict, existing, prev.records[k]);
          var row :| row in prefix && RowYields(student, row, classDict, allDict, existing, prev.records[k]);
          assert row in rows;
        } else {
          assert b.records[k] == one.records[k - |prev.records|];
          assert RowYields(student, last, classDict, allDict, existing, b.records[k]);
        }
      }
    }
  }

  /** Unless the script died, every row of the student that queues something has its record
      in the list. */
  lemma {:induction false} RowsBatchComplete(student: nat, rows: seq<ScoreRow>, classDict: SubjectDict,
                                             allDict: SubjectDict, existing: set<(nat, nat)>, row: ScoreRow, rec: Record)
    requires !RowsBatch(student, rows, classDict, allDict, existing).crashed
    requires row in rows && RowYields(student, row, classDict, allDict, existing, rec)
    ensures rec in RowsBatch(student, rows, classDict, allDict, existing).records
  {
    var prefix := rows[..|rows| - 1];
    var last := rows[|rows| - 1];
    assert rows == prefix + [last];
    var prev := RowsBatch(student, prefix, classDict, allDict, existing);
    var one := RowBatch(student, last, classDict, allDict, existing);
    assert RowsBatch(student, rows, classDict, allDict, existing) == Join(prev, one);
    assert !prev.crashed;
    if row in prefix {
      RowsBatchComplete(student, prefix, classDict, allDict, existing, row, rec);
    } else {
      assert row == last;
      assert one.records == [rec];
    }
  }

  /** One class's batch: the two lists pair up record by record. */
  lemma {:induction false} EntriesPaired(entries: seq<(string, seq<ScoreRow>)>, data: ClassData,
                                         classDict: SubjectDict, allDict: SubjectDict)
    ensures Paired(EntriesBatch(entries, data, classDict, allDict))
  {
    if |entries| > 0 {
      var prefix := entries[..|entries| - 1];
      var last := entries[|entries| - 1];
      EntriesPaired(prefix, data, classDict, allDict);
      if last.0 in data.students {
        RowsBatchSound(data.students[last.0], last.1, classDict, allDict, data.existing);
      }
      JoinPaired(EntriesBatch(prefix, data, classDict, allDict), EntryBatch(last, data, classDict, allDict));
    }
  }

  /** A record traced to a row of the leading entries is traced to a row of all of them. */
  lemma FromEntriesGrows(prefix: seq<(string, seq<ScoreRow>)>, last: (string, seq<ScoreRow>), data: ClassData,
                         classDict: SubjectDict, allDict: SubjectDict, rec: Record)
    requires FromEntries(prefix, data, classDict, allDict, rec)
    ensures FromEntries(prefix + [last], data, classDict, allDict, rec)
  {
    var e :| e in prefix && e.0 in data.students
             && FromRows(data.students[e.0], e.1, classDict, allDict, data.existing, rec);
    assert e in prefix + [last];
  }

  /** A record of the last entry's batch is traced to one of its rows. */
  lemma FromLastEntry(prefix: seq<(string, seq<ScoreRow>)>, last: (string, seq<ScoreRow>), data: ClassData,
                      classDict: SubjectDict, allDict: SubjectDict, rec: Record)
    requires rec in EntryBatch(last, data, classDict, allDict).records
    ensures FromEntries(prefix + [last], data, classDict, allDict, rec)
  {
    var student := data.students[last.0];
    var rows := RowsBatch(student, last.1, classDict, allDict, data.existing);
    RowsBatchSound(student, last.1, classDict, allDict, data.existing);
    var k :| 0 <= k < |rows.records| && rows.records[k] == rec;
    assert FromRows(student, last.1, classDict, allDict, data.existing, rec);
    assert last in prefix + [last];
  }

  /** One class's batch: every record belongs to a student of the class and is queued by one
      of that student's rows. */
  lemma {:induction false} EntriesBatchSound(entries: seq<(string, seq<ScoreRow>)>, data: ClassData,
                                             classDict: SubjectDict, allDict: SubjectDict, rec: Record)
    requires rec in EntriesBatch(entries, data, classDict, allDict).records
    ensures FromEntries(entries, data, classDict, allDict, rec)
  {
    var prefix := entries[..|entries| - 1];
    var last := entries[|entries| - 1];
    assert entries == prefix + [last];
    var prev := EntriesBatch(prefix, data, classDict, allDict);
    if rec in prev.records {
      EntriesBatchSound(prefix, data, classDict, allDict, rec);
      FromEntriesGrows(prefix, last, data, classDict, allDict, rec);
    } else {
      FromLastEntry(prefix, last, data, classDict, allDict, rec);
    }
  }

  /** Unless the script died, every row of a known student that queues something has its
      record in the class's batch. */
  lemma {:induction false} EntriesBatchComplete(entries: seq<(string, seq<ScoreRow>)>, data: ClassData,
                                                classDict: SubjectDict, allDict: SubjectDict,
                                                e: (string, seq<ScoreRow>), row: ScoreRow, rec: Record)
    requires !EntriesBatch(entries, data, classDict, allDict).crashed
    requires e in entries && e.0 in data.students && row in e.1
    requires RowYields(data.students[e.0], row, classDict, allDict, data.existing, rec)
    ensures rec in EntriesBatch(entries, data, classDict, allDict).records
  {
    var prefix := entries[..|entries| - 1];
    var last := entries[|entries| - 1];
    assert entries == prefix + [last];
    var prev := EntriesBatch(prefix, data, classDict, allDict);
    var one := EntryBatch(last, data, classDict, allDict);
    assert EntriesBatch(entries, data, classDict, allDict) == Join(prev, one);
    assert !prev.crashed;
    if e in prefix {
      EntriesBatchComplete(prefix, data, classDict, allDict, e, row, rec);
    } else {
      assert e == last;
      RowsBatchComplete(data.students[last.0], last.1, classDict, allDict, data.existing, row, rec);
    }
  }

  /** The existence check consults only the stored pairs: a row repeated in the same file
      queues its record twice. */
  lemma RepeatedRowQueuedTwice(student: nat, row: ScoreRow, classDict: SubjectDict, allDict: SubjectDict,
                               existing: set<(nat, nat)>, rec: Record)
    requires RowYields(student, row, classDict, allDict, existing, rec)
    ensures RowsBatch(student, [row, row], classDict, allDict, existing) == Batch([rec, rec], [(student, rec.subject), (student, rec.subject)], false)
  {
    var one := Batch([rec], [(student, rec.subject)], false);
    assert RowBatch(student, row, classDict, allDict, existing) == one;
    assert [row][..0] == [];
    assert RowsBatch(student, [row], classDict, allDict, existing) == Join(EmptyBatch, one) == one;
    assert [row, row][..1] == [row];
    assert RowsBatch(student, [row, row], classDict, allDict, existing) == Join(one, one);
  }

  // ---------------------------------------------------------------------------------------
  // The loop over classes (lines 195-215)

  /** The batches of the classes processed before the script ended; a class that could not
      be loaded is skipped, and the script stops after a class whose import died. */
  function AllBatches(classes: seq<ClassSource>, allSubjects: seq<Subject>): seq<(string, Batch)>
  {
    if |classes| == 0 then []
    else Step(AllBatches(classes[..|classes| - 1], allSubjects), classes[|classes| - 1], allSubjects)
  }

  /** One turn of the loop over classes. */
  function Step(prev: seq<(string, Batch)>, source: ClassSource, allSubjects: seq<Subject>): seq<(string, Batch)>
  {
    if Died(prev) then prev
    else match source.load
      case Loaded(data) => prev + [(source.className, ClassBatch(data, allSubjects))]
      case _ => prev
  }

  predicate Died(results: seq<(string, Batch)>)
  {
    |results| > 0 && results[|results| - 1].1.crashed
  }

  /** Appending one class adds one turn of the loop. */
  lemma AllBatchesSnoc(classes: seq<ClassSource>, source: ClassSource, allSubjects: seq<Subject>)
    ensures AllBatches(classes + [source], allSubjects) == Step(AllBatches(classes, allSubjects), source, allSubjects)
  {
    assert (classes + [source])[..|classes|] == classes;
  }

  /** An unloadable class between `before` and `after` changes nothing. */
  lemma {:induction false} SkipUnloaded(before: seq<ClassSource>, source: ClassSource, after: seq<ClassSource>,
                                        allSubjects: seq<Subject>)
    requires !source.load.Loaded?
    ensures AllBatches(before + [source] + after, allSubjects) == AllBatches(before + after, allSubjects)
    decreases |after|
  {
    if |after| == 0 {
      assert before + [source] + after == before + [source];
      assert before + after == before;
      AllBatchesSnoc(before, source, allSubjects);
    } else {
      var init := after[..|after| - 1];
      var last := after[|after| - 1];
      SkipUnloaded(before, source, init, allSubjects);
      assert before + [source] + after == (before + [source] + init) + [last];
      assert before + after == (before + init) + [last];
      AllBatchesSnoc(before + [source] + init, last, allSubjects);
      AllBatchesSnoc(before + init, last, allSubjects);
    }
  }

  /** A class that cannot be loaded leaves no trace: the result is the one for the other
      classes alone. */
  lemma UnloadedClassSkipped(classes: seq<ClassSource>, allSubjects: seq<Subject>, i: nat)
    requires i < |classes| && !classes[i].load.Loaded?
    ensures AllBatches(classes, allSubjects) == AllBatches(classes[..i] + classes[i + 1..], allSubjects)
  {
    assert classes == classes[..i] + [classes[i]] + classes[i + 1..];
    SkipUnloaded(classes[..i], classes[i], classes[i + 1..], allSubjects);
  }

  /** The script's loop over the class names. */
  method ImportAll(classes: seq<ClassSource>, allSubjects: seq<Subject>) returns (results: seq<(string, Batch)>)
    ensures results == AllBatches(classes, allSubjects)
  {
    results := [];
    var i := 0;
    while i < |classes|
      invariant 0 <= i <= |classes|
      invariant results == AllBatches(classes[..i], allSubjects)
      invariant !Died(results)
    {
      assert classes[..i + 1][..i] == classes[..i];
      match classes[i].load {
        case Loaded(data) =>
          var batch := ImportClass(data, allSubjects);
          results := results + [(classes[i].className, batch)];
          if batch.crashed {
            ClassesAfterDeath(classes, i + 1, allSubjects);
            return;
          }
        case _ =>
      }
      i := i + 1;
    }
    assert classes[..i] == classes;
  }

  /** Once the script has died, later classes are never processed. */
  lemma {:induction false} ClassesAfterDeath(classes: seq<ClassSource>, k: nat, allSubjects: seq<Subject>)
    requires k <= |classes| && Died(AllBatches(classes[..k], allSubjects))
    ensures AllBatches(classes, allSubjects) == AllBatches(classes[..k], allSubjects)
    decreases |classes| - k
  {
    if k < |classes| {
      assert classes[..k + 1][..k] == classes[..k];
      ClassesAfterDeath(classes, k + 1, allSubjects);
    } else {
      assert classes[..k] == classes;
    }
  }
}
