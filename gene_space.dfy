/** Candidate space (`_build_gene_space`): the seven gene domains of every
    block, and what a solution drawn from them decodes to. */
module GeneSpace {
  import opened ScheduleData
  import opened Collections
  import opened Blocks
  import opened Decoder

  /** A gene domain: `{'low': a, 'high': b}` or a list of allowed values. */
  datatype Domain = Range(low: int, high: int) | Choice(values: seq<int>)

  predicate Allows(d: Domain, v: int) {
    match d
    case Range(low, high) => low <= v <= high
    case Choice(values) => v in values
  }

  /** A gene vector the genetic search can produce: one gene per domain,
      each inside its domain. */
  predicate Admits(space: seq<Domain>, solution: seq<int>) {
    |solution| == |space| && forall j :: 0 <= j < |space| ==> Allows(space[j], solution[j])
  }

  /** Ids of the teachers registered for a subject, in table order
      (`Teacher.objects.filter(subjects=subject)`). */
  function CapableTeacherIds(teachers: seq<Teacher>, subjectId: int): (r: seq<int>)
    ensures forall id :: id in r <==> exists t :: t in teachers && subjectId in t.subjectIds && t.id == id
  {
    if teachers == [] then []
    else
      var t := teachers[|teachers| - 1];
      Snoc(teachers);
      CapableTeacherIds(teachers[..|teachers| - 1], subjectId) + (if subjectId in t.subjectIds then [t.id] else [])
  }

  /** The teacher domain: the registered teachers when the subject has any,
      and otherwise only the first teacher of the table. */
  function TeacherDomain(teachers: seq<Teacher>, subjectId: int): (r: seq<int>)
    requires teachers != []
    ensures r != []
    ensures forall id :: id in r ==> exists t :: t in teachers && t.id == id
    ensures (exists t :: t in teachers && subjectId in t.subjectIds) ==>
      forall id :: id in r <==> exists t :: t in teachers && subjectId in t.subjectIds && t.id == id
    ensures (forall t :: t in teachers ==> subjectId !in t.subjectIds) ==> r == [teachers[0].id]
  {
    var ids := CapableTeacherIds(teachers, subjectId);
    CapableTeachersListed(teachers, subjectId);
    if ids != [] then assert ids[0] in ids; ids else [teachers[0].id]
  }

  /** Every teacher registered for the subject has its id listed. */
  lemma CapableTeachersListed(teachers: seq<Teacher>, subjectId: int)
    ensures forall t :: t in teachers && subjectId in t.subjectIds ==> t.id in CapableTeacherIds(teachers, subjectId)
  {
  }

  function RoomIds(rooms: seq<Room>): (r: seq<int>)
    ensures forall id :: id in r <==> exists room :: room in rooms && room.id == id
  {
    if rooms == [] then []
    else
      var room := rooms[|rooms| - 1];
      Snoc(rooms);
      RoomIds(rooms[..|rooms| - 1]) + [room.id]
  }

  /** `list(range(n))`. */
  function Indices(n: nat): (r: seq<int>)
    ensures |r| == n && forall k :: 0 <= k < n ==> r[k] == k
  {
    seq(n, k requires 0 <= k < n => k)
  }

  /** The seven domains of one block, in gene order: its course and its
      subject as one-value ranges, the teacher domain, every room, every day
      index, every time-slot index, and its slot hours. What a gene drawn
      from each means is stated by `AdmittedSolutionsDecode`. */
  function BlockDomains(snap: Snapshot, b: Block): (r: seq<Domain>)
    requires snap.teachers != []
    ensures |r| == 7
  {
    [ Range(b.course.id, b.course.id),
      Range(b.subject.id, b.subject.id),
      Choice(TeacherDomain(snap.teachers, b.subject.id)),
      Choice(RoomIds(snap.rooms)),
      Choice(Indices(|Days|)),
      Choice(Indices(|TimeSlots|)),
      Choice([b.slotHours]) ]
  }

  /** The whole gene space, block after block: `GeneSpaceOfAt` locates the
      domains of each block in it. */
  function GeneSpaceOf(snap: Snapshot, blocks: seq<Block>): (r: seq<Domain>)
    requires snap.teachers != []
    ensures |r| == 7 * |blocks|
  {
    if blocks == [] then []
    else GeneSpaceOf(snap, blocks[..|blocks| - 1]) + BlockDomains(snap, blocks[|blocks| - 1])
  }

  /** Domain `k` of block `i` is at position `7 * i + k`. */
  lemma {:induction false} GeneSpaceOfAt(snap: Snapshot, blocks: seq<Block>, i: nat, k: nat)
    requires snap.teachers != []
    requires i < |blocks| && k < 7
    ensures GeneSpaceOf(snap, blocks)[7 * i + k] == BlockDomains(snap, blocks[i])[k]
  {
    var n := |blocks| - 1;
    var prefix := GeneSpaceOf(snap, blocks[..n]);
    assert GeneSpaceOf(snap, blocks) == prefix + BlockDomains(snap, blocks[n]);
    assert |prefix| == 7 * n;
    if i < n {
      GeneSpaceOfAt(snap, blocks[..n], i, k);
      assert blocks[..n][i] == blocks[i];
      assert 7 * i + k < |prefix|;
    } else {
      assert 7 * i + k == |prefix| + k;
    }
  }

  lemma GeneSpaceOfSnoc(snap: Snapshot, blocks: seq<Block>, i: nat)
    requires snap.teachers != [] && i < |blocks|
    ensures GeneSpaceOf(snap, blocks[..i + 1]) == GeneSpaceOf(snap, blocks[..i]) + BlockDomains(snap, blocks[i])
  {
    PrefixStep(blocks, i);
  }

  /** `_build_gene_space`: the gene space, or the IndexError of
      `self.teachers[0]` when a block exists and there are no teachers. */
  method BuildGeneSpace(snap: Snapshot, blocks: seq<Block>) returns (r: Result<seq<Domain>>)
    ensures r.IndexError? <==> blocks != [] && snap.teachers == []
    ensures r.Ok? || r.IndexError?
    ensures r.Ok? ==> |r.value| == 7 * |blocks|
    ensures r.Ok? && blocks != [] ==> r.value == GeneSpaceOf(snap, blocks)
  {
    var geneSpace: seq<Domain> := [];
    for i := 0 to |blocks|
      invariant snap.teachers != [] ==> geneSpace == GeneSpaceOf(snap, blocks[..i])
      invariant snap.teachers == [] ==> i == 0 && geneSpace == []
    {
      var b := blocks[i];
      var validTeachers := CapableTeacherIds(snap.teachers, b.subject.id);
      if validTeachers == [] && snap.teachers == [] {
        return IndexError;
      }
      var teacherIds := if validTeachers != [] then validTeachers else [snap.teachers[0].id];
      // The seven appends of one block, in the source's order.
      var domains := [ Range(b.course.id, b.course.id), Range(b.subject.id, b.subject.id),
                       Choice(teacherIds), Choice(RoomIds(snap.rooms)), Choice(Indices(|Days|)),
                       Choice(Indices(|TimeSlots|)), Choice([b.slotHours]) ];
      assert domains == BlockDomains(snap, b);
      geneSpace := geneSpace + domains;
      GeneSpaceOfSnoc(snap, blocks, i);
    }
    if snap.teachers != [] {
      WholePrefix(blocks);
    }
    r := Ok(geneSpace);
  }

  /** What one decoded record looks like when its genes come from the
      domains of block `b`. */
  predicate Fits(a: Assignment, snap: Snapshot, b: Block)
    requires snap.teachers != []
  {
    && a.courseId == b.course.id
    && a.subjectId == b.subject.id
    && a.teacherId in TeacherDomain(snap.teachers, b.subject.id)
    && a.roomId in RoomIds(snap.rooms)
    && a.startTime in TimeSlots
    && a.slotHours == b.slotHours
    && a.duration == 60 * b.slotHours
  }

  /** Every gene vector the search can produce decodes without error, record
      `i` carrying block `i`'s course, subject and length, one of its
      teachers, a listed room and one of the six time slots. */
  lemma AdmittedSolutionsDecode(snap: Snapshot, blocks: seq<Block>, solution: seq<int>)
    requires snap.teachers != []
    requires Admits(GeneSpaceOf(snap, blocks), solution)
    ensures Decodable(solution, |blocks|)
    ensures forall i :: 0 <= i < |blocks| ==> Fits(Decoded(solution, |blocks|)[i], snap, blocks[i])
  {
    var space := GeneSpaceOf(snap, blocks);
    forall i | 0 <= i < |blocks|
      ensures DecodeRecord(Genes(solution, i)).Ok?
      ensures Fits(DecodeRecord(Genes(solution, i)).value, snap, blocks[i])
    {
      var g := Genes(solution, i);
      var d := BlockDomains(snap, blocks[i]);
      forall k | 0 <= k < 7 ensures Allows(d[k], g[k]) {
        GeneSpaceOfAt(snap, blocks, i, k);
        assert g[k] == solution[7 * i + k];
      }
      assert Allows(d[4], g[4]) && Allows(d[5], g[5]);
      assert g[4] in Indices(|Days|) && g[5] in Indices(|TimeSlots|);
    }
  }
}
