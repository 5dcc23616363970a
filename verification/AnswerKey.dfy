/**
  The publish-time shuffle of a trace's choices (pipeline/publish.py): the choices move, the ids are dealt
  out again in sorted order, and the answer key and the why_wrong notes move with them. Ids are numbers in
  the order that the source sorts its letters.
 */
module AnswerKey {
  import opened Basics

  datatype Choice = Choice(id: nat, text: string, misconception: Option<string>)

  datatype Entry = Entry(oldId: nat, text: string, misconception: Option<string>, isCorrect: bool)

  datatype Note = Note(choiceId: nat, why: string)

  // ---------------------------------------------------------------- what the shuffle computes

  /** The entries built from a candidate: the keyed choice shows the captured output. */
  function EntryOf(c: Choice, correct: nat, stdout: string): Entry {
    Entry(c.id, if c.id == correct then stdout else c.text, c.misconception, c.id == correct)
  }

  function Entries(choices: seq<Choice>, correct: nat, stdout: string): seq<Entry> {
    seq(|choices|, i requires 0 <= i < |choices| => EntryOf(choices[i], correct, stdout))
  }

  function InsertId(id: nat, ids: seq<nat>): seq<nat> {
    if ids == [] || id <= ids[0] then [id] + ids else [ids[0]] + InsertId(id, ids[1..])
  }

  /** sorted(entry["old_id"] for entry in entries) */
  function IdSpace(entries: seq<Entry>): (ids: seq<nat>)
    ensures |ids| == |entries|
  {
    if entries == [] then []
    else
      InsertSize(entries[0].oldId, IdSpace(entries[1..]));
      InsertId(entries[0].oldId, IdSpace(entries[1..]))
  }

  lemma {:induction false} InsertSize(id: nat, ids: seq<nat>)
    ensures |InsertId(id, ids)| == |ids| + 1
  {
    if ids != [] {
      InsertSize(id, ids[1..]);
    }
  }

  function Reassigned(entries: seq<Entry>): seq<Choice> {
    var ids := IdSpace(entries);
    seq(|entries|, i requires 0 <= i < |entries| => Choice(ids[i], entries[i].text, entries[i].misconception))
  }

  /** id_remap after the first n entries. */
  function Remap(entries: seq<Entry>, n: nat): map<nat, nat>
    requires n <= |entries|
  {
    if n == 0 then map[] else Remap(entries, n - 1)[entries[n - 1].oldId := IdSpace(entries)[n - 1]]
  }

  /** correct_choice_id after the first n entries; None is the empty string. */
  function CorrectId(entries: seq<Entry>, n: nat): Option<nat>
    requires n <= |entries|
  {
    if n == 0 then None
    else if entries[n - 1].isCorrect then Some(IdSpace(entries)[n - 1])
    else CorrectId(entries, n - 1)
  }

  function RemapNote(note: Note, remap: map<nat, nat>): Note {
    if note.choiceId in remap then note.(choiceId := remap[note.choiceId]) else note
  }

  // ---------------------------------------------------------------- the code

  /** random.shuffle: any exchanges, from the end down. */
  method Shuffle(entries: array<Entry>, draws: seq<nat>)
    modifies entries
    ensures multiset(entries[..]) == multiset(old(entries[..]))
  {
    var i := entries.Length;
    while i > 1
      invariant multiset(entries[..]) == multiset(old(entries[..]))
      decreases i
    {
      i := i - 1;
      var j := if i < |draws| then draws[i] % (i + 1) else i;
      entries[i], entries[j] := entries[j], entries[i];
    }
  }

  /** reassign_shuffled_choice_ids */
  method Reassign(entries: array<Entry>, draws: seq<nat>)
    returns (choices: seq<Choice>, correctChoiceId: Option<nat>, idRemap: map<nat, nat>)
    modifies entries
    ensures multiset(entries[..]) == multiset(old(entries[..]))
    ensures choices == Reassigned(entries[..])
    ensures idRemap == Remap(entries[..], entries.Length) && correctChoiceId == CorrectId(entries[..], entries.Length)
  {
    Shuffle(entries, draws);
    var idSpace := IdSpace(entries[..]);
    choices, idRemap, correctChoiceId := [], map[], None;
    for k := 0 to entries.Length
      invariant choices == Reassigned(entries[..])[..k]
      invariant idRemap == Remap(entries[..], k) && correctChoiceId == CorrectId(entries[..], k)
    {
      choices := choices + [Choice(idSpace[k], entries[k].text, entries[k].misconception)];
      idRemap := idRemap[entries[k].oldId := idSpace[k]];
      if entries[k].isCorrect {
        correctChoiceId := Some(idSpace[k]);
      }
    }
  }

  /** _remap_trace_why_wrong, on the notes in place. */
  method RemapWhyWrong(notes: array<Note>, idRemap: map<nat, nat>)
    modifies notes
    ensures forall k :: 0 <= k < notes.Length ==> notes[k] == RemapNote(old(notes[k]), idRemap)
  {
    for i := 0 to notes.Length
      invariant forall k :: 0 <= k < i ==> notes[k] == RemapNote(old(notes[k]), idRemap)
      invariant forall k :: i <= k < notes.Length ==> notes[k] == old(notes[k])
    {
      var oldId := notes[i].choiceId;
      if oldId in idRemap {
        notes[i] := notes[i].(choiceId := idRemap[oldId]);
      }
    }
  }

  // ---------------------------------------------------------------- the key survives

  predicate DistinctIds(choices: seq<Choice>) {
    forall i, j :: 0 <= i < j < |choices| ==> choices[i].id != choices[j].id
  }

  predicate DistinctOld(entries: seq<Entry>) {
    forall i, j :: 0 <= i < j < |entries| ==> entries[i].oldId != entries[j].oldId
  }

  lemma {:induction false} InsertElements(id: nat, ids: seq<nat>)
    ensures multiset(InsertId(id, ids)) == multiset(ids) + multiset{id}
  {
    if ids != [] && id > ids[0] {
      InsertElements(id, ids[1..]);
      assert ids == [ids[0]] + ids[1..];
    }
  }

  function OldIds(entries: seq<Entry>): seq<nat> {
    seq(|entries|, i requires 0 <= i < |entries| => entries[i].oldId)
  }

  /** The ids dealt out are the old ids. */
  lemma {:induction false} IdSpaceElements(entries: seq<Entry>)
    ensures multiset(IdSpace(entries)) == multiset(OldIds(entries))
  {
    if entries != [] {
      IdSpaceElements(entries[1..]);
      InsertElements(entries[0].oldId, IdSpace(entries[1..]));
      assert OldIds(entries) == [entries[0].oldId] + OldIds(entries[1..]);
    }
  }

  predicate DistinctNats(s: seq<nat>) {
    forall i, j :: 0 <= i < j < |s| ==> s[i] != s[j]
  }

  lemma {:induction false} AtMostOnce<T>(s: seq<T>)
    requires forall i, j :: 0 <= i < j < |s| ==> s[i] != s[j]
    ensures forall x :: multiset(s)[x] <= 1
  {
    if s != [] {
      var rest, last := s[..|s| - 1], s[|s| - 1];
      AtMostOnce(rest);
      assert s == rest + [last];
      assert last !in multiset(rest);
    }
  }

  lemma Twice<T>(s: seq<T>, i: nat, j: nat)
    requires i < j < |s| && s[i] == s[j]
    ensures multiset(s)[s[i]] >= 2
  {
    var before, after := s[..j], s[j + 1..];
    assert s == before + [s[j]] + after;
    assert before[i] in multiset(before);
  }

  /** A permutation of distinct elements has distinct elements. */
  lemma StillDistinct<T>(s: seq<T>, t: seq<T>)
    requires forall i, j :: 0 <= i < j < |s| ==> s[i] != s[j]
    requires multiset(s) == multiset(t)
    ensures forall i, j :: 0 <= i < j < |t| ==> t[i] != t[j]
    ensures forall x :: x in s <==> x in t
  {
    AtMostOnce(s);
    forall i, j | 0 <= i < j < |t| ensures t[i] != t[j] {
      if t[i] == t[j] {
        Twice(t, i, j);
      }
    }
    assert forall x :: x in s <==> x in multiset(s);
    assert forall x :: x in t <==> x in multiset(t);
  }

  lemma IdSpaceDistinct(entries: seq<Entry>)
    requires DistinctOld(entries)
    ensures DistinctNats(IdSpace(entries))
    ensures forall x :: x in IdSpace(entries) <==> x in OldIds(entries)
  {
    IdSpaceElements(entries);
    StillDistinct(OldIds(entries), IdSpace(entries));
  }

  /** Every entry's old id is mapped to the id its choice now has. */
  lemma {:induction false} RemapIs(entries: seq<Entry>, n: nat)
    requires n <= |entries| && DistinctOld(entries)
    ensures forall x :: x in Remap(entries, n) <==> exists i :: 0 <= i < n && entries[i].oldId == x
    ensures forall i :: 0 <= i < n ==> entries[i].oldId in Remap(entries, n)
                                       && Remap(entries, n)[entries[i].oldId] == IdSpace(entries)[i]
  {
    if n > 0 {
      RemapIs(entries, n - 1);
    }
  }

  lemma {:induction false} CorrectIs(entries: seq<Entry>, n: nat, k: nat)
    requires k < n <= |entries| && entries[k].isCorrect
    requires forall i :: 0 <= i < |entries| && entries[i].isCorrect ==> i == k
    ensures CorrectId(entries, n) == Some(IdSpace(entries)[k])
  {
    if k < n - 1 {
      CorrectIs(entries, n - 1, k);
    }
  }

  /** A permutation of a candidate's entries still has one entry for every choice. */
  lemma Positions(choices: seq<Choice>, correct: nat, stdout: string, shuffled: seq<Entry>)
    requires DistinctIds(choices) && multiset(shuffled) == multiset(Entries(choices, correct, stdout))
    ensures DistinctOld(shuffled)
    ensures forall i :: 0 <= i < |choices| ==> EntryOf(choices[i], correct, stdout) in shuffled
    ensures forall e :: e in shuffled ==> exists i :: 0 <= i < |choices| && e == EntryOf(choices[i], correct, stdout)
  {
    var entries := Entries(choices, correct, stdout);
    assert forall i :: 0 <= i < |choices| ==> entries[i] == EntryOf(choices[i], correct, stdout);
    StillDistinct(entries, shuffled);
    forall i | 0 <= i < |choices| ensures EntryOf(choices[i], correct, stdout) in shuffled {
      assert entries[i] in entries;
    }
    forall k, m | 0 <= k < m < |shuffled| ensures shuffled[k].oldId != shuffled[m].oldId {
      assert shuffled[k] in entries && shuffled[m] in entries;
    }
  }

  /** What the player sees under an id. */
  predicate Shows(choices: seq<Choice>, id: nat, text: string, misconception: Option<string>) {
    exists k :: 0 <= k < |choices| && choices[k] == Choice(id, text, misconception)
  }

  predicate HasId(choices: seq<Choice>, id: nat) {
    exists k :: 0 <= k < |choices| && choices[k].id == id
  }

  predicate StaysAmong(choices: seq<Choice>, remap: map<nat, nat>, id: nat) {
    id in remap ==> HasId(choices, remap[id])
  }

  /** A renaming of the ids onto themselves. */
  ghost predicate Renames(choices: seq<Choice>, published: seq<Choice>, remap: map<nat, nat>) {
    && DistinctIds(published)
    && (forall id :: HasId(published, id) <==> HasId(choices, id))
    && (forall id :: id in remap <==> HasId(choices, id))
    && (forall id :: StaysAmong(choices, remap, id))
    && (forall a, b :: a in remap && b in remap && a != b ==> remap[a] != remap[b])
  }

  /** The choice stands under its new id as it was, the keyed one with the captured output. */
  ghost predicate Moved(c: Choice, correct: nat, stdout: string, published: seq<Choice>, remap: map<nat, nat>) {
    c.id in remap && Shows(published, remap[c.id], if c.id == correct then stdout else c.text, c.misconception)
  }

  /**
    For every permutation: the ids are dealt out again among themselves, one to one; under its new id every
    distractor keeps its text and misconception; and the new correct id shows the captured output.
   */
  lemma AnswerKeySurvives(choices: seq<Choice>, correct: nat, stdout: string, shuffled: seq<Entry>)
    requires DistinctIds(choices) && HasId(choices, correct)
    requires multiset(shuffled) == multiset(Entries(choices, correct, stdout))
    ensures var published, remap := Reassigned(shuffled), Remap(shuffled, |shuffled|);
            && Renames(choices, published, remap)
            && correct in remap && CorrectId(shuffled, |shuffled|) == Some(remap[correct])
            && forall i :: 0 <= i < |choices| ==> Moved(choices[i], correct, stdout, published, remap)
  {
    Positions(choices, correct, stdout, shuffled);
    OldIdsAre(choices, correct, stdout, shuffled);
    RemapCovers(choices, shuffled);
    RemapDeals(choices, shuffled);
    CorrectMoves(choices, correct, stdout, shuffled);
    forall i | 0 <= i < |choices|
      ensures Moved(choices[i], correct, stdout, Reassigned(shuffled), Remap(shuffled, |shuffled|))
    {
      ChoiceMoves(choices, correct, stdout, shuffled, i);
    }
  }

  lemma ChoiceMoves(choices: seq<Choice>, correct: nat, stdout: string, shuffled: seq<Entry>, i: nat)
    requires DistinctOld(shuffled) && i < |choices| && EntryOf(choices[i], correct, stdout) in shuffled
    ensures Moved(choices[i], correct, stdout, Reassigned(shuffled), Remap(shuffled, |shuffled|))
  {
    RemapIs(shuffled, |shuffled|);
    var e := EntryOf(choices[i], correct, stdout);
    var k :| 0 <= k < |shuffled| && shuffled[k] == e;
    assert Reassigned(shuffled)[k] == Choice(IdSpace(shuffled)[k], e.text, e.misconception);
  }

  lemma OldIdsAre(choices: seq<Choice>, correct: nat, stdout: string, shuffled: seq<Entry>)
    requires DistinctIds(choices) && multiset(shuffled) == multiset(Entries(choices, correct, stdout))
    ensures forall id :: id in OldIds(shuffled) <==> HasId(choices, id)
  {
    Positions(choices, correct, stdout, shuffled);
    forall id | HasId(choices, id) ensures id in OldIds(shuffled) {
      var i :| 0 <= i < |choices| && choices[i].id == id;
      var k :| 0 <= k < |shuffled| && shuffled[k] == EntryOf(choices[i], correct, stdout);
      assert OldIds(shuffled)[k] == id;
    }
    forall id | id in OldIds(shuffled) ensures HasId(choices, id) {
      var k :| 0 <= k < |shuffled| && OldIds(shuffled)[k] == id;
      assert shuffled[k] in shuffled;
      var i :| 0 <= i < |choices| && shuffled[k] == EntryOf(choices[i], correct, stdout);
      assert choices[i].id == id;
    }
  }

  lemma OldIdAt(entries: seq<Entry>, id: nat)
    ensures id in OldIds(entries) <==> exists k :: 0 <= k < |entries| && entries[k].oldId == id
  {
    var ids := OldIds(entries);
    if k :| 0 <= k < |entries| && entries[k].oldId == id {
      assert ids[k] == id;
    }
  }

  lemma RemapCovers(choices: seq<Choice>, shuffled: seq<Entry>)
    requires DistinctOld(shuffled) && forall id :: id in OldIds(shuffled) <==> HasId(choices, id)
    ensures forall id :: id in Remap(shuffled, |shuffled|) <==> HasId(choices, id)
  {
    RemapIs(shuffled, |shuffled|);
    forall id ensures id in Remap(shuffled, |shuffled|) <==> HasId(choices, id) {
      OldIdAt(shuffled, id);
    }
  }

  lemma DealtIds(shuffled: seq<Entry>)
    ensures forall id :: HasId(Reassigned(shuffled), id) <==> id in IdSpace(shuffled)
  {
    var published, ids := Reassigned(shuffled), IdSpace(shuffled);
    assert forall k :: 0 <= k < |published| ==> published[k].id == ids[k];
    assert forall id :: HasId(published, id) <==> exists k :: 0 <= k < |ids| && ids[k] == id;
  }

  /** Where an old id was dealt its new one. */
  lemma RemapTo(shuffled: seq<Entry>, a: nat) returns (k: nat)
    requires DistinctOld(shuffled) && a in Remap(shuffled, |shuffled|)
    ensures k < |shuffled| && shuffled[k].oldId == a && Remap(shuffled, |shuffled|)[a] == IdSpace(shuffled)[k]
  {
    RemapIs(shuffled, |shuffled|);
    k :| 0 <= k < |shuffled| && shuffled[k].oldId == a;
  }

  lemma RemapStays(shuffled: seq<Entry>, a: nat)
    requires DistinctOld(shuffled) && a in Remap(shuffled, |shuffled|)
    ensures Remap(shuffled, |shuffled|)[a] in IdSpace(shuffled)
  {
    var k := RemapTo(shuffled, a);
  }

  lemma RemapApart(shuffled: seq<Entry>, a: nat, b: nat)
    requires DistinctOld(shuffled) && DistinctNats(IdSpace(shuffled))
    requires a in Remap(shuffled, |shuffled|) && b in Remap(shuffled, |shuffled|) && a != b
    ensures Remap(shuffled, |shuffled|)[a] != Remap(shuffled, |shuffled|)[b]
  {
    var j := RemapTo(shuffled, a);
    var k := RemapTo(shuffled, b);
  }

  lemma RemapInjective(shuffled: seq<Entry>)
    requires DistinctOld(shuffled)
    ensures var remap := Remap(shuffled, |shuffled|);
            forall a, b :: a in remap && b in remap && a != b ==> remap[a] != remap[b]
  {
    IdSpaceDistinct(shuffled);
    var remap := Remap(shuffled, |shuffled|);
    forall a, b | a in remap && b in remap && a != b ensures remap[a] != remap[b] {
      RemapApart(shuffled, a, b);
    }
  }

  lemma RemapAmong(shuffled: seq<Entry>)
    requires DistinctOld(shuffled)
    ensures var remap := Remap(shuffled, |shuffled|);
            forall a :: a in remap ==> remap[a] in IdSpace(shuffled)
  {
    forall a | a in Remap(shuffled, |shuffled|) ensures Remap(shuffled, |shuffled|)[a] in IdSpace(shuffled) {
      RemapStays(shuffled, a);
    }
  }

  lemma RemapDeals(choices: seq<Choice>, shuffled: seq<Entry>)
    requires DistinctOld(shuffled) && forall id :: id in OldIds(shuffled) <==> HasId(choices, id)
    ensures var published, remap := Reassigned(shuffled), Remap(shuffled, |shuffled|);
            && DistinctIds(published)
            && (forall id :: HasId(published, id) <==> HasId(choices, id))
            && (forall id :: StaysAmong(choices, remap, id))
            && (forall a, b :: a in remap && b in remap && a != b ==> remap[a] != remap[b])
  {
    IdSpaceDistinct(shuffled);
    DealtIds(shuffled);
    RemapInjective(shuffled);
    RemapAmong(shuffled);
    assert forall k :: 0 <= k < |shuffled| ==> Reassigned(shuffled)[k].id == IdSpace(shuffled)[k];
  }

  lemma CorrectMoves(choices: seq<Choice>, correct: nat, stdout: string, shuffled: seq<Entry>)
    requires DistinctIds(choices) && HasId(choices, correct)
    requires multiset(shuffled) == multiset(Entries(choices, correct, stdout))
    ensures correct in Remap(shuffled, |shuffled|)
    ensures CorrectId(shuffled, |shuffled|) == Some(Remap(shuffled, |shuffled|)[correct])
  {
    Positions(choices, correct, stdout, shuffled);
    RemapIs(shuffled, |shuffled|);
    var i :| 0 <= i < |choices| && choices[i].id == correct;
    var k :| 0 <= k < |shuffled| && shuffled[k] == EntryOf(choices[i], correct, stdout);
    forall m | 0 <= m < |shuffled| && shuffled[m].isCorrect ensures m == k {
      assert shuffled[m] in shuffled;
      var j :| 0 <= j < |choices| && shuffled[m] == EntryOf(choices[j], correct, stdout);
      assert shuffled[m].oldId == correct == shuffled[k].oldId;
    }
    CorrectIs(shuffled, |shuffled|, k);
  }

  predicate Named(notes: seq<Note>, id: nat) {
    exists n :: 0 <= n < |notes| && notes[n].choiceId == id
  }

  /** The notes explain the distractors, every one and no other choice. */
  ghost predicate CoversDistractors(notes: seq<Note>, choices: seq<Choice>, correct: nat) {
    forall id :: Named(notes, id) <==> HasId(choices, id) && id != correct
  }

  function Remapped(notes: seq<Note>, remap: map<nat, nat>): seq<Note> {
    seq(|notes|, i requires 0 <= i < |notes| => RemapNote(notes[i], remap))
  }

  lemma NoteMoves(choices: seq<Choice>, correct: nat, published: seq<Choice>, remap: map<nat, nat>, notes: seq<Note>, n: nat)
    requires Renames(choices, published, remap) && CoversDistractors(notes, choices, correct) && n < |notes|
    ensures var id := notes[n].choiceId;
            id in remap && id != correct && Remapped(notes, remap)[n] == Note(remap[id], notes[n].why)
            && HasId(published, remap[id])
  {
    assert Named(notes, notes[n].choiceId);
    assert StaysAmong(choices, remap, notes[n].choiceId);
  }

  lemma NoteNamed(notes: seq<Note>, remap: map<nat, nat>, a: nat)
    requires Named(notes, a) && a in remap
    ensures Named(Remapped(notes, remap), remap[a])
  {
    var n :| 0 <= n < |notes| && notes[n].choiceId == a;
    assert Remapped(notes, remap)[n].choiceId == remap[a];
  }

  /** After the remap the notes name exactly the new distractors. */
  lemma NotesCover(choices: seq<Choice>, correct: nat, remap: map<nat, nat>, notes: seq<Note>, shuffled: seq<Entry>)
    requires DistinctOld(shuffled) && remap == Remap(shuffled, |shuffled|)
    requires Renames(choices, Reassigned(shuffled), remap) && correct in remap && CoversDistractors(notes, choices, correct)
    ensures CoversDistractors(Remapped(notes, remap), Reassigned(shuffled), remap[correct])
  {
    var moved, published := Remapped(notes, remap), Reassigned(shuffled);
    forall id | Named(moved, id) ensures HasId(published, id) && id != remap[correct] {
      var n :| 0 <= n < |moved| && moved[n].choiceId == id;
      NoteMoves(choices, correct, published, remap, notes, n);
    }
    forall id | HasId(published, id) && id != remap[correct] ensures Named(moved, id) {
      var a := DealtTo(shuffled, id);
      NoteNamed(notes, remap, a);
    }
  }

  /** The notes still cover exactly the distractors, and each stands by the choice it was written for. */
  lemma NotesFollow(choices: seq<Choice>, correct: nat, stdout: string, shuffled: seq<Entry>, notes: seq<Note>)
    requires DistinctIds(choices) && HasId(choices, correct) && CoversDistractors(notes, choices, correct)
    requires multiset(shuffled) == multiset(Entries(choices, correct, stdout))
    ensures var published, remap := Reassigned(shuffled), Remap(shuffled, |shuffled|);
            && correct in remap
            && CoversDistractors(Remapped(notes, remap), published, remap[correct])
            && forall n, i :: 0 <= n < |notes| && 0 <= i < |choices| && notes[n].choiceId == choices[i].id ==>
                 Shows(published, Remapped(notes, remap)[n].choiceId, choices[i].text, choices[i].misconception)
                 && Remapped(notes, remap)[n].why == notes[n].why
  {
    AnswerKeySurvives(choices, correct, stdout, shuffled);
    Positions(choices, correct, stdout, shuffled);
    var published, remap := Reassigned(shuffled), Remap(shuffled, |shuffled|);
    NotesCover(choices, correct, remap, notes, shuffled);
    forall n, i | 0 <= n < |notes| && 0 <= i < |choices| && notes[n].choiceId == choices[i].id
      ensures Shows(published, Remapped(notes, remap)[n].choiceId, choices[i].text, choices[i].misconception)
              && Remapped(notes, remap)[n].why == notes[n].why
    {
      NoteMoves(choices, correct, published, remap, notes, n);
      assert Moved(choices[i], correct, stdout, published, remap);
    }
  }

  /** Every id dealt out is some old id's new one. */
  lemma DealtTo(shuffled: seq<Entry>, id: nat) returns (a: nat)
    requires DistinctOld(shuffled) && HasId(Reassigned(shuffled), id)
    ensures a in Remap(shuffled, |shuffled|) && Remap(shuffled, |shuffled|)[a] == id
  {
    RemapIs(shuffled, |shuffled|);
    var k :| 0 <= k < |shuffled| && Reassigned(shuffled)[k].id == id;
    a := shuffled[k].oldId;
  }
}
