/**
 Pipes: a bounded buffer that is shifted in place, readers and writers that are
 suspended, and the ways they are woken up. What readers get is what writers
 were told had been accepted, in order.
 */
module Pipe {

  /** One page of words. */
  const PIPE_LIMIT := 1024

  const EPIPE := 32
  const ENOSPC := 28

  /** A suspended request; id tells it from all other requests. */
  datatype Wait = Wait(id: nat, words: seq<int>, count: nat)

  datatype End = ReadEnd | WriteEnd

  datatype Reply = Ret(n: int) | Suspended | Signalled

  // ----- the waiting lists -----

  /** The requests that wait are different, are known and have not been answered. */
  ghost predicate Unanswered(ws: seq<Wait>, answers: map<nat, int>, nextId: nat) {
    && (forall i :: 0 <= i < |ws| ==> ws[i].id < nextId && ws[i].id !in answers)
    && forall i, j :: 0 <= i < j < |ws| ==> ws[i].id != ws[j].id
  }

  ghost predicate Apart(ws: seq<Wait>, vs: seq<Wait>) {
    forall i, j :: 0 <= i < |ws| && 0 <= j < |vs| ==> ws[i].id != vs[j].id
  }

  ghost predicate WaitsOk(readers: seq<Wait>, writers: seq<Wait>, answers: map<nat, int>, nextId: nat) {
    && Unanswered(readers, answers, nextId) && Unanswered(writers, answers, nextId) && Apart(readers, writers)
    && (forall id :: id in answers ==> id < nextId)
    && (forall i :: 0 <= i < |readers| ==> readers[i].count > 0)
    && forall i :: 0 <= i < |writers| ==> writers[i].words != []
  }

  lemma AddReader(readers: seq<Wait>, writers: seq<Wait>, answers: map<nat, int>, nextId: nat, count: nat)
    requires WaitsOk(readers, writers, answers, nextId) && count > 0
    ensures WaitsOk([Wait(nextId, [], count)] + readers, writers, answers, nextId + 1)
  {
  }

  lemma AddWriter(readers: seq<Wait>, writers: seq<Wait>, answers: map<nat, int>, nextId: nat, words: seq<int>)
    requires WaitsOk(readers, writers, answers, nextId) && words != []
    ensures WaitsOk(readers, [Wait(nextId, words, |words|)] + writers, answers, nextId + 1)
  {
  }

  /** The first request of a list is answered: it had not been before. */
  lemma AnswerReader(readers: seq<Wait>, writers: seq<Wait>, answers: map<nat, int>, nextId: nat, n: int)
    requires WaitsOk(readers, writers, answers, nextId) && readers != []
    ensures readers[0].id !in answers && readers[0].count > 0
    ensures WaitsOk(readers[1..], writers, answers[readers[0].id := n], nextId)
  {
  }

  lemma AnswerWriter(readers: seq<Wait>, writers: seq<Wait>, answers: map<nat, int>, nextId: nat, n: int)
    requires WaitsOk(readers, writers, answers, nextId) && writers != []
    ensures writers[0].id !in answers && writers[0].words != []
    ensures WaitsOk(readers, writers[1..], answers[writers[0].id := n], nextId)
  {
  }

  /** How many words the readers of a list ask for, and what the writers of a list bring. */
  function Counts(ws: seq<Wait>): nat {
    if ws == [] then 0 else Counts(ws[..|ws| - 1]) + ws[|ws| - 1].count
  }

  function Gathered(ws: seq<Wait>): seq<int> {
    if ws == [] then [] else Gathered(ws[..|ws| - 1]) + ws[|ws| - 1].words
  }

  /** What is left of n words, or of room for n, for request i of a list, and what it gets of that. */
  function ReaderGets(ws: seq<Wait>, n: nat, i: nat): int
    requires i < |ws|
  {
    Least(ws[i].count, n - Least(n, Counts(ws[..i])))
  }

  function WriterGets(ws: seq<Wait>, n: nat, i: nat): int
    requires i < |ws|
  {
    Least(|ws[i].words|, n - Least(n, |Gathered(ws[..i])|))
  }

  /** Of one stream, what more has been delivered was in the pipe. */
  lemma StreamOn(all: seq<int>, d: seq<int>, inside: seq<int>, d': seq<int>, inside': seq<int>)
    requires all == d + inside == d' + inside' && |d| <= |d'| <= |all|
    ensures |d'| - |d| <= |inside| && d' == d + inside[..|d'| - |d|]
  {
    assert d' == all[..|d'|];
  }

  lemma NobodyWaits()
    ensures WaitsOk([], [], map[], 0)
  {
  }

  lemma CountsOn(ws: seq<Wait>, k: nat)
    requires k < |ws|
    ensures Counts(ws[..k + 1]) == Counts(ws[..k]) + ws[k].count
    ensures Gathered(ws[..k + 1]) == Gathered(ws[..k]) + ws[k].words
  {
    assert ws[..k + 1][..k] == ws[..k];
  }

  /** The part of a further writer's words that fits goes on where what fitted before ends. */
  lemma FitsOn(a: seq<int>, c: seq<int>, w: seq<int>, n: nat)
    ensures var m := Least(n, |c|);
            (a + c[..m]) + w[..Least(|w|, n - m)] == a + (c + w)[..Least(n, |c + w|)]
  {
    var m := Least(n, |c|);
    assert c[..m] + w[..Least(|w|, n - m)] == (c + w)[..Least(n, |c + w|)];
  }

  /** Exactly the requests of a list have been answered, none of them a second time. */
  ghost predicate AllAnswered(waiting: seq<Wait>, before: map<nat, int>, after: map<nat, int>) {
    && (forall i :: 0 <= i < |waiting| ==> waiting[i].id in after && waiting[i].id !in before)
    && (forall id :: id in before ==> id in after && after[id] == before[id])
    && forall id :: id in after && id !in before ==> exists i :: 0 <= i < |waiting| && waiting[i].id == id
  }

  lemma NoneAnswered(before: map<nat, int>)
    ensures AllAnswered([], before, before)
  {
  }

  lemma OneMore(waiting: seq<Wait>, w: Wait, before: map<nat, int>, after: map<nat, int>, n: int)
    requires AllAnswered(waiting, before, after) && w.id !in after
    ensures AllAnswered(waiting + [w], before, after[w.id := n])
  {
    forall id | id in after[w.id := n] && id !in before
      ensures exists i :: 0 <= i < |waiting + [w]| && (waiting + [w])[i].id == id {
      if id == w.id {
        assert (waiting + [w])[|waiting|].id == id;
      } else {
        var i :| 0 <= i < |waiting| && waiting[i].id == id;
        assert (waiting + [w])[i].id == id;
      }
    }
  }

  /** What a caller can check: no reader waits, or the write will put nothing into the pipe. */
  predicate WriteLeavesNone(readers: seq<Wait>, readCount: nat, end: End, words: seq<int>) {
    readers == [] || end == ReadEnd || readCount == 0 || words == [] || |words| > PIPE_LIMIT
  }

  /**
   Each reader of a list has been answered, with the next of n words, as many as
   it asked for or were left; in all that makes this many words.
   */
  ghost predicate ReadersGot(ws: seq<Wait>, n: nat, answers0: map<nat, int>, answers: map<nat, int>, given: int) {
    && AllAnswered(ws, answers0, answers) && given == Least(n, Counts(ws))
    && forall i :: 0 <= i < |ws| ==> answers[ws[i].id] == ReaderGets(ws, n, i)
  }

  /**
   Each writer of a list has been answered, with as many of its words as were
   accepted: there was room for n words of all of theirs, one after the other.
   */
  ghost predicate WritersGot(ws: seq<Wait>, n: nat, answers0: map<nat, int>, answers: map<nat, int>,
                             accepted0: seq<int>, accepted: seq<int>) {
    && AllAnswered(ws, answers0, answers) && accepted == accepted0 + Gathered(ws)[..Least(n, |Gathered(ws)|)]
    && forall i :: 0 <= i < |ws| ==> answers[ws[i].id] == WriterGets(ws, n, i)
  }

  lemma NoneGot(n: nat, answers: map<nat, int>, accepted: seq<int>)
    ensures ReadersGot([], n, answers, answers, 0) && WritersGot([], n, answers, answers, accepted, accepted)
  {
    NoneAnswered(answers);
  }

  lemma GotIs(ws: seq<Wait>, n: nat, answers0: map<nat, int>, answers: map<nat, int>, given: int)
    requires ReadersGot(ws, n, answers0, answers, given)
    ensures 0 <= given == Least(n, Counts(ws))
  {
  }

  lemma AnsweredIn(ws: seq<Wait>, answers0: map<nat, int>, answers: map<nat, int>)
    requires AllAnswered(ws, answers0, answers)
    ensures forall i :: 0 <= i < |ws| ==> ws[i].id in answers
  {
  }

  /** A request more changes nothing for those before it. */
  lemma GetsKept(ws: seq<Wait>, w: Wait, n: nat, i: nat)
    requires i < |ws|
    ensures ReaderGets(ws + [w], n, i) == ReaderGets(ws, n, i) && WriterGets(ws + [w], n, i) == WriterGets(ws, n, i)
  {
    hide Counts;
    hide Gathered;
    assert (ws + [w])[..i] == ws[..i];
  }

  lemma GetsLast(ws: seq<Wait>, w: Wait, n: nat)
    ensures var ws' := ws + [w];
            && ReaderGets(ws', n, |ws|) == Least(w.count, n - Least(n, Counts(ws)))
            && WriterGets(ws', n, |ws|) == Least(|w.words|, n - Least(n, |Gathered(ws)|))
            && Counts(ws') == Counts(ws) + w.count && Gathered(ws') == Gathered(ws) + w.words
  {
    hide Counts;
    hide Gathered;
    assert (ws + [w])[..|ws|] == ws && (ws + [w])[..|ws| + 1] == ws + [w];
    CountsOn(ws + [w], |ws|);
  }

  lemma ReadersGotOn(ws: seq<Wait>, w: Wait, n: nat, answers0: map<nat, int>, answers: map<nat, int>, given: int)
    requires ReadersGot(ws, n, answers0, answers, given) && w.id !in answers
    ensures var g := Least(w.count, n - given); ReadersGot(ws + [w], n, answers0, answers[w.id := g], given + g)
  {
    hide AllAnswered;
    hide Counts;
    hide ReaderGets;
    var g := Least(w.count, n - given);
    var ws' := ws + [w];
    AnsweredIn(ws, answers0, answers);
    OneMore(ws, w, answers0, answers, g);
    GetsLast(ws, w, n);
    AnsweredIn(ws', answers0, answers[w.id := g]);
    forall i | 0 <= i < |ws'| ensures answers[w.id := g][ws'[i].id] == ReaderGets(ws', n, i) {
      if i < |ws| {
        GetsKept(ws, w, n, i);
      }
    }
  }

  lemma WritersGotOn(ws: seq<Wait>, w: Wait, n: nat, answers0: map<nat, int>, answers: map<nat, int>,
                     accepted0: seq<int>, accepted: seq<int>)
    requires WritersGot(ws, n, answers0, answers, accepted0, accepted) && w.id !in answers
    ensures var g := Least(|w.words|, n - (|accepted| - |accepted0|));
            && 0 <= g <= |w.words|
            && WritersGot(ws + [w], n, answers0, answers[w.id := g], accepted0, accepted + w.words[..g])
  {
    hide AllAnswered;
    hide Gathered;
    hide WriterGets;
    var g := Least(|w.words|, n - (|accepted| - |accepted0|));
    var ws' := ws + [w];
    AnsweredIn(ws, answers0, answers);
    OneMore(ws, w, answers0, answers, g);
    GetsLast(ws, w, n);
    FitsOn(accepted0, Gathered(ws), w.words, n);
    AnsweredIn(ws', answers0, answers[w.id := g]);
    forall i | 0 <= i < |ws'| ensures answers[w.id := g][ws'[i].id] == WriterGets(ws', n, i) {
      if i < |ws| {
        GetsKept(ws, w, n, i);
      }
    }
  }

  class Pipe {
    const data: array<int>
    var pos: nat
    var readers: seq<Wait>
    var writers: seq<Wait>
    var iCount: int
    var readCount: nat
    var writeCount: nat
    ghost var accepted: seq<int>
    ghost var delivered: seq<int>
    ghost var answers: map<nat, int>
    var nextId: nat

    ghost predicate Stream()
      reads this, data
    {
      data.Length == PIPE_LIMIT && pos <= PIPE_LIMIT && accepted == delivered + data[..pos]
    }

    ghost predicate Core()
      reads this, data
    {
      Stream() && WaitsOk(readers, writers, answers, nextId)
    }

    /**
     The ends that are open are counted; nobody waits for an end that is closed,
     and no writer waits at an empty pipe that is open for writing.
     */
    ghost predicate Valid()
      reads this, data
    {
      && Core()
      && iCount == (if readCount > 0 then 1 else 0) + (if writeCount > 0 then 1 else 0)
      && (writeCount == 0 ==> readers == []) && (readCount == 0 ==> writers == [])
      && (writers != [] && writeCount > 0 ==> pos > 0)
    }

    constructor ()
      ensures Valid() && fresh(data) && pos == 0 && readCount == writeCount == 1 && accepted == delivered == []
              && readers == writers == []
    {
      hide WaitsOk;
      NobodyWaits();
      data := new int[PIPE_LIMIT];
      pos, iCount, readCount, writeCount := 0, 2, 1, 1;
      readers, writers := [], [];
      accepted, delivered, answers, nextId := [], [], map[], 0;
    }

    /** Move what is behind place i to the front, word by word; the words left behind are blanked. */
    method Shift(i0: nat)
      requires data.Length == PIPE_LIMIT && i0 <= pos <= PIPE_LIMIT
      modifies `pos, data
      ensures pos == old(pos) - i0
      ensures data[..pos] == if i0 > 0 then old(data[..])[i0..old(pos)] else Blank(pos)
      ensures forall k :: pos <= k < old(pos) ==> data[k] == 0
    {
      var i, j, end := i0, 0, pos;
      while i < end
        invariant i0 <= i <= end && j == i - i0
        invariant forall k :: 0 <= k < j ==> data[k] == if i0 > 0 then old(data[k + i0]) else 0
        invariant forall k :: i <= k < end ==> data[k] == old(data[k])
      {
        data[j] := data[i];
        data[i] := 0;
        i := i + 1;
        j := j + 1;
      }
      var k := j;
      while k < end
        invariant j <= k <= end && forall l :: j <= l < k ==> data[l] == 0
        invariant forall l :: 0 <= l < j ==> data[l] == if i0 > 0 then old(data[l + i0]) else 0
      {
        data[k] := 0;
        k := k + 1;
      }
      pos := j;
    }

    /** Take up to count words out at the front. With count 0 the shift blanks what is in the pipe. */
    method TakeOut(count: nat) returns (out: seq<int>)
      requires Stream()
      modifies `pos, `delivered, data
      ensures out == old(data[..])[..Least(count, old(pos))] && pos == old(pos) - |out|
              && delivered == old(delivered) + out
      ensures data[..pos] == if count > 0 then old(data[..])[|out|..old(pos)] else Blank(old(pos))
      ensures count > 0 ==> Stream()
    {
      var end := if count < pos then count else pos;
      out := [];
      var i := 0;
      while i < end
        invariant 0 <= i <= end && out == data[..i]
      {
        out := out + [data[i]];
        i := i + 1;
      }
      ghost var was := data[..pos];
      Shift(i);
      assert was == out + was[i..];
      delivered := delivered + out;
    }

    /** Put words in at the back, as many as there is room for. */
    method PutIn(words: seq<int>) returns (n: nat)
      requires Stream()
      modifies `pos, `accepted, data
      ensures Stream() && n == Least(|words|, PIPE_LIMIT - old(pos)) && pos == old(pos) + n
      ensures accepted == old(accepted) + words[..n] && data[..pos] == old(data[..pos]) + words[..n]
    {
      var off := pos;
      var end := if off + |words| < PIPE_LIMIT then off + |words| else PIPE_LIMIT;
      var i := off;
      while i < end
        invariant off <= i <= end && pos == off && accepted == old(accepted)
                  && data[..i] == old(data[..pos]) + words[..i - off]
      {
        data[i] := words[i - off];
        i := i + 1;
      }
      n := i - off;
      pos := pos + n;
      accepted := accepted + words[..n];
    }

    /** The first reader in the list is woken: it gets what is in the pipe. */
    method WakeReader()
      requires Core() && readers != []
      modifies `pos, `delivered, `readers, `answers, data
      ensures Core() && readers == old(readers)[1..]
      ensures delivered == old(delivered) + old(data[..])[..Least(old(readers)[0].count, old(pos))]
      ensures answers == old(answers)[old(readers)[0].id := Least(old(readers)[0].count, old(pos))]
    {
      hide WaitsOk;
      var next := readers[0];
      AnswerReader(readers, writers, answers, nextId, Least(next.count, pos));
      readers := readers[1..];
      var out := TakeOut(next.count);
      answers := answers[next.id := |out|];
    }

    /** The first writer in the list is woken: its words go in as far as there is room. */
    method WakeWriter()
      requires Core() && writers != []
      modifies `pos, `accepted, `writers, `answers, data
      ensures Core() && writers == old(writers)[1..] && pos > 0
      ensures var n := Least(|old(writers)[0].words|, PIPE_LIMIT - old(pos));
              && accepted == old(accepted) + old(writers)[0].words[..n] && pos == old(pos) + n
              && answers == old(answers)[old(writers)[0].id := n]
    {
      hide WaitsOk;
      var next := writers[0];
      AnswerWriter(readers, writers, answers, nextId, Least(|next.words|, PIPE_LIMIT - pos));
      writers := writers[1..];
      var n := PutIn(next.words);
      answers := answers[next.id := n];
    }

    /** What is in the pipe. */
    ghost function Inside(): seq<int>
      requires pos <= data.Length
      reads this, data
    {
      data[..pos]
    }

    /** No reader waits at a pipe that is not empty. */
    ghost predicate NoneLeft()
      reads this
    {
      readers == [] || pos == 0
    }

    /**
     A read takes from the front and lets one waiting writer in; an empty pipe
     suspends it while a writer may come.
     */
    method PipeRead(end: End, count: nat, nonblock: bool) returns (r: Reply, out: seq<int>)
      requires Valid() && readCount > 0 && count > 0
      modifies `pos, `accepted, `delivered, `readers, `writers, `answers, `nextId, data
      ensures Valid() && delivered == old(delivered) + out && (old(NoneLeft()) ==> NoneLeft())
      ensures end == ReadEnd && old(pos) > 0 ==>
                && out == old(Inside())[..Least(count, old(pos))] && r == Ret(|out|) && readers == old(readers)
                && (old(writers) == [] ==> accepted == old(accepted) && writers == [] && answers == old(answers))
                && (old(writers) != [] ==>
                      var w := old(writers)[0]; var n := Least(|w.words|, PIPE_LIMIT - old(pos) + |out|);
                      writers == old(writers)[1..] && accepted == old(accepted) + w.words[..n]
                      && answers == old(answers)[w.id := n])
      ensures !(end == ReadEnd && old(pos) > 0) ==>
                && out == [] && accepted == old(accepted) && writers == old(writers) && answers == old(answers)
                && Inside() == old(Inside())
                && if end == ReadEnd && !nonblock && writeCount > 0
                   then r == Suspended && readers == [Wait(old(nextId), [], count)] + old(readers)
                   else r == Ret(0) && readers == old(readers)
    {
      hide WaitsOk;
      out := [];
      if end == WriteEnd {
        return Ret(0), [];
      }
      if pos == 0 {
        if nonblock {
          return Ret(0), [];
        }
        if iCount == 1 {
          return Ret(0), [];
        }
        AddReader(readers, writers, answers, nextId, count);
        readers := [Wait(nextId, [], count)] + readers;
        nextId := nextId + 1;
        return Suspended, [];
      }
      out := TakeOut(count);
      if writers != [] {
        WakeWriter();
      }
      return Ret(|out|), out;
    }

    /**
     A write goes in as a whole or not at all. One reader is woken, and only if
     there is not enough room. So a write of some words that would fit leaves a
     reader waiting at a pipe that is no longer empty, and no other write does.
     */
    method PipeWrite(end: End, words: seq<int>, nonblock: bool, ignoresSigpipe: bool) returns (r: Reply)
      requires Valid() && writeCount > 0
      modifies `pos, `accepted, `delivered, `readers, `writers, `answers, `nextId, data
      ensures Valid()
      ensures var open := end == WriteEnd && readCount > 0;
              var wakes := open && PIPE_LIMIT - old(pos) < |words| <= PIPE_LIMIT && old(readers) != [];
              var room := PIPE_LIMIT - old(pos) + if wakes then Least(old(readers)[0].count, old(pos)) else 0;
              && readers == (if wakes then old(readers)[1..] else old(readers))
              && delivered == old(delivered)
                 + old(Inside())[..if wakes then Least(old(readers)[0].count, old(pos)) else 0]
              && answers == (if wakes then old(answers)[old(readers)[0].id := Least(old(readers)[0].count, old(pos))]
                             else old(answers))
              && r == (if end == ReadEnd then Ret(0)
                       else if readCount == 0 then if ignoresSigpipe then Ret(-EPIPE) else Signalled
                       else if |words| > PIPE_LIMIT then Ret(-ENOSPC)
                       else if |words| <= room then Ret(|words|)
                       else if nonblock then Ret(0)
                       else Suspended)
              && writers == (if r == Suspended then [Wait(old(nextId), words, |words|)] + old(writers)
                             else old(writers))
      ensures if r.Ret? && r.n >= 0 then r.n <= |words| && accepted == old(accepted) + words[..r.n]
              else accepted == old(accepted)
      ensures old(NoneLeft()) ==> (NoneLeft() <==> WriteLeavesNone(old(readers), readCount, end, words))
    {
      hide WaitsOk;
      if end == ReadEnd {
        return Ret(0);
      }
      if iCount == 1 {
        if ignoresSigpipe {
          return Ret(-EPIPE);
        }
        return Signalled;
      }
      if |words| > PIPE_LIMIT {
        return Ret(-ENOSPC);
      }
      if |words| > PIPE_LIMIT - pos {
        if readers != [] {
          WakeReader();
        }
      }
      if |words| > PIPE_LIMIT - pos {
        if nonblock {
          return Ret(0);
        }
        AddWriter(readers, writers, answers, nextId, words);
        writers := [Wait(nextId, words, |words|)] + writers;
        nextId := nextId + 1;
        return Suspended;
      }
      var n := PutIn(words);
      assert words[..n] == words;
      return Ret(n);
    }

    /** A further descriptor of an open end, as dup and fork give one. */
    method Dup(end: End)
      requires Valid() && (if end == ReadEnd then readCount > 0 else writeCount > 0)
      modifies `readCount, `writeCount
      ensures Valid()
      ensures readCount == old(readCount) + (if end == ReadEnd then 1 else 0)
      ensures writeCount == old(writeCount) + (if end == WriteEnd then 1 else 0)
    {
      hide WaitsOk;
      if end == ReadEnd {
        readCount := readCount + 1;
      } else {
        writeCount := writeCount + 1;
      }
    }

    /** Close one of the descriptors of an end; with the last one, those who wait at the other end are let go. */
    method PipeClose(end: End)
      requires Valid() && (if end == ReadEnd then readCount > 0 else writeCount > 0)
      modifies this, data
      ensures Valid()
      ensures readCount == old(readCount) - (if end == ReadEnd then 1 else 0)
      ensures writeCount == old(writeCount) - (if end == WriteEnd then 1 else 0)
      ensures (if end == ReadEnd then readCount else writeCount) > 0 ==>
                readers == old(readers) && writers == old(writers) && answers == old(answers)
                && Inside() == old(Inside())
      ensures end == ReadEnd && readCount == 0 ==>
                && readers == old(readers)
                && WritersGot(old(writers), PIPE_LIMIT - old(pos), old(answers), answers, old(accepted), accepted)
                && delivered == old(delivered)
      ensures end == WriteEnd && writeCount == 0 ==>
                && writers == old(writers) && accepted == old(accepted)
                && ReadersGot(old(readers), old(pos), old(answers), answers, |delivered| - |old(delivered)|)
                && delivered == old(delivered) + old(Inside())[..Least(old(pos), Counts(old(readers)))]
    {
      hide WaitsOk;
      hide AllAnswered;
      hide ReadersGot;
      hide WritersGot;
      hide Counts;
      if end == ReadEnd {
        readCount := readCount - 1;
        if readCount == 0 {
          iCount := iCount - 1;
          DrainWriters();
        }
      } else {
        writeCount := writeCount - 1;
        if writeCount == 0 {
          iCount := iCount - 1;
          DrainReaders();
        }
      }
    }

    method DrainReaders()
      requires Core()
      modifies `pos, `delivered, `readers, `answers, data
      ensures Core() && readers == []
      ensures ReadersGot(old(readers), old(pos), old(answers), answers, |delivered| - |old(delivered)|)
      ensures delivered == old(delivered) + old(Inside())[..Least(old(pos), Counts(old(readers)))]
    {
      hide WaitsOk;
      hide ReadersGot;
      hide Counts;
      ghost var k := 0;
      NoneGot(old(pos), old(answers), old(accepted));
      assert old(readers)[..0] == [];
      while readers != []
        invariant Core() && 0 <= k <= |old(readers)| && readers == old(readers)[k..]
        invariant ReadersGot(old(readers)[..k], old(pos), old(answers), answers, |delivered| - |old(delivered)|)
        decreases |readers|
      {
        ghost var was, w, n := answers, readers[0], |delivered| - |old(delivered)|;
        AnswerReader(readers, writers, answers, nextId, 0);
        assert pos == old(pos) - n;
        WakeReader();
        ReadersGotOn(old(readers)[..k], w, old(pos), old(answers), was, n);
        k := k + 1;
        assert old(readers)[..k] == old(readers)[..k - 1] + [w];
      }
      assert old(readers)[..k] == old(readers);
      GotIs(old(readers), old(pos), old(answers), answers, |delivered| - |old(delivered)|);
      StreamOn(accepted, old(delivered), old(Inside()), delivered, Inside());
    }

    method DrainWriters()
      requires Core()
      modifies `pos, `accepted, `writers, `answers, data
      ensures Core() && writers == []
      ensures WritersGot(old(writers), PIPE_LIMIT - old(pos), old(answers), answers, old(accepted), accepted)
    {
      hide WaitsOk;
      hide WritersGot;
      ghost var k := 0;
      NoneGot(PIPE_LIMIT - old(pos), old(answers), old(accepted));
      assert old(writers)[..0] == [];
      while writers != []
        invariant Core() && 0 <= k <= |old(writers)| && writers == old(writers)[k..]
        invariant WritersGot(old(writers)[..k], PIPE_LIMIT - old(pos), old(answers), answers, old(accepted), accepted)
        invariant |accepted| - |old(accepted)| == pos - old(pos)
        decreases |writers|
      {
        ghost var was, w, all := answers, writers[0], accepted;
        AnswerWriter(readers, writers, answers, nextId, 0);
        WakeWriter();
        WritersGotOn(old(writers)[..k], w, PIPE_LIMIT - old(pos), old(answers), was, old(accepted), all);
        k := k + 1;
        assert old(writers)[..k] == old(writers)[..k - 1] + [w];
      }
      assert old(writers)[..k] == old(writers);
    }
  }

  /** A reader can be left waiting at a pipe that is not empty. */
  method ReaderLeftWaiting() returns (p: Pipe)
    ensures fresh(p) && p.Valid() && p.readers != [] && p.pos > 0
  {
    hide WaitsOk;
    p := new Pipe();
    var r, out := p.PipeRead(ReadEnd, 1, false);
    r := p.PipeWrite(WriteEnd, [7], false, false);
  }

  function Least(a: int, b: int): int {
    if a < b then a else b
  }

  function Blank(n: nat): seq<int> {
    seq(n, i => 0)
  }
}
