/** `MessageRepository`: the rotation of `Marquee` entries and the queue of
    one-time messages, the list splices that insert an answer of the
    language model, and the line format the rotation is saved in. */
module MessageRepository {
  import opened Wrappers
  import opened Strings
  import opened Message
  import Seqs
  import TextFile

  /** A rotation entry with its object identity: the `Marquee` classes are
      not data classes, so `indexOf` finds an entry by identity, not text. */
  datatype Entry = Entry(id: nat, m: Marquee)

  /** The two lists, and the next unused identity. */
  datatype Repo = Repo(rotation: seq<Entry>, queue: seq<Msg>, nextId: nat)

  /** Identities are distinct and all were handed out already. */
  predicate Wf(r: Repo) {
    && (forall i, j :: 0 <= i < j < |r.rotation| ==> r.rotation[i].id != r.rotation[j].id)
    && (forall i :: 0 <= i < |r.rotation| ==> r.rotation[i].id < r.nextId)
  }

  /** A fresh object: the entry for `m` with the next identity. */
  function Fresh(r: Repo, m: Marquee): (e: Entry)
    ensures forall i :: 0 <= i < |r.rotation| && Wf(r) ==> r.rotation[i].id != e.id
  {
    Entry(r.nextId, m)
  }

  function Texts(rot: seq<Entry>): (ts: seq<string>)
    ensures |ts| == |rot|
    ensures forall i :: 0 <= i < |rot| ==> ts[i] == rot[i].m.str
  {
    if |rot| == 0 then [] else [rot[0].m.str] + Texts(rot[1..])
  }

  // ---------------------------------------------------------------------
  // The one-time queue

  /** `pushOneTimeMessage`: in front of everything else. */
  function PushOneTimeMessage(q: seq<Msg>, m: Msg): (q': seq<Msg>)
    ensures |q'| == |q| + 1 && q'[0] == m && q'[1..] == q
  {
    [m] + q
  }

  /** `enqueueOneTimeMessage`: behind everything else. */
  function EnqueueOneTimeMessage(q: seq<Msg>, m: Msg): (q': seq<Msg>)
    ensures |q'| == |q| + 1 && q'[|q|] == m && q'[..|q|] == q
  {
    q + [m]
  }

  /** The `forEach` of `pushOneTimeMessages`: each message pushed in turn. */
  function PushEach(q: seq<Msg>, ms: seq<Msg>): seq<Msg>
    decreases |ms|
  {
    if |ms| == 0 then q else PushEach(PushOneTimeMessage(q, ms[0]), ms[1..])
  }

  /** `pushOneTimeMessages(m1, ..., mk)`: pushes the messages last to first. */
  function PushOneTimeMessages(q: seq<Msg>, ms: seq<Msg>): seq<Msg> {
    PushEach(q, Seqs.Reverse(ms))
  }

  /** Pushing a reversed list one by one puts it in front in its own order. */
  lemma {:induction false} PushEachReversed(q: seq<Msg>, ms: seq<Msg>)
    ensures PushEach(q, Seqs.Reverse(ms)) == ms + q
    decreases |ms|
  {
    if |ms| > 0 {
      var last := ms[|ms| - 1];
      var init := ms[..|ms| - 1];
      assert ms == init + [last];
      assert Seqs.Reverse(ms) == [last] + Seqs.Reverse(init) by {
        Seqs.ReverseAppend(init, [last]);
      }
      assert Seqs.Reverse(ms)[1..] == Seqs.Reverse(init);
      assert PushEach(q, Seqs.Reverse(ms)) == PushEach([last] + q, Seqs.Reverse(init));
      PushEachReversed([last] + q, init);
      assert init + ([last] + q) == ms + q;
    }
  }

  /** `pushOneTimeMessages` puts the messages at the head, to be shown in
      the order given, before everything queued before. */
  lemma PushOneTimeMessagesOrder(q: seq<Msg>, ms: seq<Msg>)
    ensures PushOneTimeMessages(q, ms) == ms + q
  {
    PushEachReversed(q, ms);
  }

  // ---------------------------------------------------------------------
  // The rotation

  /** `pushMarqueeMessage`: a new entry in front of everything else. */
  function PushMarqueeMessage(r: Repo, m: Marquee): (r': Repo)
    ensures r'.rotation == [Fresh(r, m)] + r.rotation && r'.queue == r.queue
    ensures Wf(r) ==> Wf(r')
  {
    r.(rotation := [Fresh(r, m)] + r.rotation, nextId := r.nextId + 1)
  }

  /** `marqueeMessages.addAll(ms)`: fresh entries at the tail, in order. */
  function AddAll(r: Repo, ms: seq<Marquee>): (r': Repo)
    ensures |r'.rotation| == |r.rotation| + |ms| && r'.rotation[..|r.rotation|] == r.rotation
    ensures forall i :: 0 <= i < |ms| ==> r'.rotation[|r.rotation| + i].m == ms[i]
    ensures r'.queue == r.queue
    ensures Wf(r) ==> Wf(r')
    decreases |ms|
  {
    if |ms| == 0 then r
    else
      var r1 := r.(rotation := r.rotation + [Fresh(r, ms[0])], nextId := r.nextId + 1);
      var r2 := AddAll(r1, ms[1..]);
      assert r2.rotation[..|r.rotation|] == r1.rotation[..|r.rotation|];
      r2
  }

  /** `indexOf(e)` by identity: the index holding `e`'s identity, or -1. */
  function IndexOfId(rot: seq<Entry>, id: nat): (i: int)
    ensures -1 <= i < |rot|
    ensures 0 <= i ==> rot[i].id == id
    ensures i == -1 ==> forall k :: 0 <= k < |rot| ==> rot[k].id != id
  {
    if |rot| == 0 then -1
    else if rot[0].id == id then 0
    else
      var j := IndexOfId(rot[1..], id);
      if j == -1 then -1 else j + 1
  }

  /** `insertGPTReply`: the upper-cased answer goes right after the query,
      which becomes a `User` with the same text. When the query is no longer
      in the rotation, the answer goes to index 1 and the entry at index 0 is
      overwritten (an empty rotation makes `add(1, …)` throw). */
  function InsertGPTReply(r: Repo, query: Entry, answer: string, upper: string -> string): (res: Result<Repo>)
    requires query.m.kind == GPTQuery
    ensures res.Fail? <==> IndexOfId(r.rotation, query.id) == -1 && |r.rotation| == 0
    ensures res.Fail? ==> res.crash == IndexOutOfBounds
    ensures res.Ok? ==> res.value.queue == r.queue
  {
    var reply := Fresh(r, NewMarquee(GPTReply, upper(answer)));
    var user := Entry(r.nextId + 1, ToUserMessage(query.m));
    var i := IndexOfId(r.rotation, query.id);
    if 0 <= i then
      Ok(r.(rotation := r.rotation[..i] + [user, reply] + r.rotation[i + 1..], nextId := r.nextId + 2))
    else if |r.rotation| == 0 then Fail(IndexOutOfBounds)
    else
      Ok(r.(rotation := [user, reply] + r.rotation[1..], nextId := r.nextId + 2))
  }

  /** When the query is found at `i`: `[i]` is the query's text as a
      `User`, `[i+1]` the upper-cased answer, every other entry keeps its
      place relative to the others, and identities stay distinct. */
  lemma InsertGPTReplyFound(r: Repo, query: Entry, answer: string, upper: string -> string, i: nat)
    requires Wf(r) && query.m.kind == GPTQuery
    requires i < |r.rotation| && r.rotation[i] == query
    ensures var res := InsertGPTReply(r, query, answer, upper);
      && res.Ok?
      && var rot := res.value.rotation;
      && rot[i].m == NewMarquee(User, query.m.str)
      && rot[i + 1].m == NewMarquee(GPTReply, upper(answer))
      && rot[..i] == r.rotation[..i] && rot[i + 2..] == r.rotation[i + 1..]
      && Wf(res.value)
      && (forall k :: 0 <= k < |rot| ==> rot[k].id != query.id)
  {
    var user := Entry(r.nextId + 1, ToUserMessage(query.m));
    var reply := Entry(r.nextId, NewMarquee(GPTReply, upper(answer)));
    var s := r.rotation[..i] + [user, reply] + r.rotation[i + 1..];
    assert InsertGPTReply(r, query, answer, upper) == Ok(r.(rotation := s, nextId := r.nextId + 2));
    SpliceKeepsIdsDistinct(r.rotation, i, user, reply, r.nextId);
  }

  /** Replacing entry `i` by two entries with new identities keeps identities
      distinct and drops the identity of the entry replaced. */
  lemma SpliceKeepsIdsDistinct(rot: seq<Entry>, i: nat, a: Entry, b: Entry, bound: nat)
    requires i < |rot|
    requires forall x, y :: 0 <= x < y < |rot| ==> rot[x].id != rot[y].id
    requires forall x :: 0 <= x < |rot| ==> rot[x].id < bound
    requires bound <= a.id && bound <= b.id && a.id != b.id
    ensures var s := rot[..i] + [a, b] + rot[i + 1..];
      && |s| == |rot| + 1 && s[i] == a && s[i + 1] == b
      && s[..i] == rot[..i] && s[i + 2..] == rot[i + 1..]
      && (forall x, y :: 0 <= x < y < |s| ==> s[x].id != s[y].id)
      && (forall x :: 0 <= x < |s| ==> s[x].id != rot[i].id)
      && (forall x :: 0 <= x < |s| ==> s[x].id < 1 + if a.id < b.id then b.id else a.id)
  {
    var s := rot[..i] + [a, b] + rot[i + 1..];
    assert forall x :: 0 <= x < i ==> s[x] == rot[x];
    assert forall x :: i + 2 <= x < |s| ==> s[x] == rot[x - 1];
    assert s[..i] == rot[..i];
    assert s[i + 2..] == rot[i + 1..];
  }

  /** When the query is gone: the answer is at index 1 and the former entry
      0 is lost, replaced by the query's text as a `User`. */
  lemma InsertGPTReplyMissing(r: Repo, query: Entry, answer: string, upper: string -> string)
    requires Wf(r) && query.m.kind == GPTQuery
    requires forall k :: 0 <= k < |r.rotation| ==> r.rotation[k].id != query.id
    requires |r.rotation| > 0
    ensures var res := InsertGPTReply(r, query, answer, upper);
      && res.Ok?
      && var rot := res.value.rotation;
      && rot[0].m == NewMarquee(User, query.m.str)
      && rot[1].m == NewMarquee(GPTReply, upper(answer))
      && rot[2..] == r.rotation[1..]
      && Wf(res.value)
      && (forall k :: 0 <= k < |rot| ==> rot[k].id != r.rotation[0].id)
  {
  }

  /** Whatever the query, a successful splice adds exactly one entry and
      keeps identities distinct and handed out. */
  lemma InsertGPTReplyKeepsWf(r: Repo, query: Entry, answer: string, upper: string -> string)
    requires Wf(r) && query.m.kind == GPTQuery
    ensures var res := InsertGPTReply(r, query, answer, upper);
      res.Ok? ==> Wf(res.value) && |res.value.rotation| == |r.rotation| + 1
  {
    var user := Entry(r.nextId + 1, ToUserMessage(query.m));
    var reply := Entry(r.nextId, NewMarquee(GPTReply, upper(answer)));
    var i := IndexOfId(r.rotation, query.id);
    if 0 <= i {
      var s := r.rotation[..i] + [user, reply] + r.rotation[i + 1..];
      assert InsertGPTReply(r, query, answer, upper) == Ok(r.(rotation := s, nextId := r.nextId + 2));
      SpliceWf(r, i, user, reply);
    } else if |r.rotation| > 0 {
      var s := [user, reply] + r.rotation[1..];
      assert InsertGPTReply(r, query, answer, upper) == Ok(r.(rotation := s, nextId := r.nextId + 2));
      assert r.rotation[..0] + [user, reply] + r.rotation[1..] == s;
      SpliceWf(r, 0, user, reply);
    }
  }

  /** Two new entries in place of entry `i` keep the repository well-formed. */
  lemma SpliceWf(r: Repo, i: nat, a: Entry, b: Entry)
    requires Wf(r) && i < |r.rotation|
    requires a.id == r.nextId + 1 && b.id == r.nextId
    ensures Wf(r.(rotation := r.rotation[..i] + [a, b] + r.rotation[i + 1..], nextId := r.nextId + 2))
  {
    SpliceKeepsIdsDistinct(r.rotation, i, a, b, r.nextId);
  }

  /** Removing an entry keeps identities distinct and handed out. */
  lemma RemoveAtKeepsWf(r: Repo, i: nat)
    requires i < |r.rotation|
    ensures Wf(r) ==> Wf(r.(rotation := Seqs.RemoveAt(r.rotation, i)))
  {
    var rot := Seqs.RemoveAt(r.rotation, i);
    assert forall k :: 0 <= k < |rot| ==> rot[k] == r.rotation[if k < i then k else k + 1];
  }

  /** Index of the first entry whose text is `s`, or -1. */
  function IndexOfText(rot: seq<Entry>, s: string): (i: int)
    ensures -1 <= i < |rot|
    ensures 0 <= i ==> rot[i].m.str == s && forall k :: 0 <= k < i ==> rot[k].m.str != s
    ensures i == -1 ==> forall k :: 0 <= k < |rot| ==> rot[k].m.str != s
  {
    if |rot| == 0 then -1
    else if rot[0].m.str == s then 0
    else
      var j := IndexOfText(rot[1..], s);
      if j == -1 then -1 else j + 1
  }

  /** `insertGPTReplyToUserMessage`: the answer goes right after the first
      entry whose text is `inReplyTo`, or after entry 0 when there is none;
      `first()` throws on an empty rotation. */
  function InsertGPTReplyToUserMessage(r: Repo, inReplyTo: string, answer: string, upper: string -> string): (res: Result<Repo>)
    ensures res.Fail? <==> |r.rotation| == 0
    ensures res.Fail? ==> res.crash == NoSuchElement
  {
    if |r.rotation| == 0 then Fail(NoSuchElement)
    else
      var t := IndexOfText(r.rotation, inReplyTo);
      var target := if t == -1 then 0 else t;
      var reply := Fresh(r, NewMarquee(GPTReply, upper(answer)));
      Ok(r.(rotation := Seqs.InsertAt(r.rotation, target + 1, reply), nextId := r.nextId + 1))
  }

  /** Nothing is rewritten: taking the new answer out gives the old
      rotation back, and it sits right after its target. */
  lemma InsertGPTReplyToUserMessageShape(r: Repo, inReplyTo: string, answer: string, upper: string -> string)
    requires Wf(r) && |r.rotation| > 0
    ensures var res := InsertGPTReplyToUserMessage(r, inReplyTo, answer, upper);
      && res.Ok? && Wf(res.value)
      && var t := IndexOfText(r.rotation, inReplyTo);
      && var target := if t == -1 then 0 else t;
      && Seqs.RemoveAt(res.value.rotation, target + 1) == r.rotation
      && res.value.rotation[target + 1].m == NewMarquee(GPTReply, upper(answer))
      && res.value.rotation[target] == r.rotation[target]
  {
    var t := IndexOfText(r.rotation, inReplyTo);
    var target := if t == -1 then 0 else t;
    var reply := Fresh(r, NewMarquee(GPTReply, upper(answer)));
    var rot := Seqs.InsertAt(r.rotation, target + 1, reply);
    Seqs.RemoveInsert(r.rotation, target + 1, reply);
    InsertAtWf(r, target + 1, reply);
    assert rot[target] == rot[..target + 1][target];
  }

  /** A fresh entry inserted anywhere keeps the repository well-formed. */
  lemma InsertAtWf(r: Repo, i: nat, e: Entry)
    requires Wf(r) && i <= |r.rotation| && e.id == r.nextId
    ensures Wf(r.(rotation := Seqs.InsertAt(r.rotation, i, e), nextId := r.nextId + 1))
  {
    var s := Seqs.InsertAt(r.rotation, i, e);
    forall k | 0 <= k < |s| && k != i
      ensures s[k] == r.rotation[if k < i then k else k - 1]
    {
      if k < i {
        assert s[k] == s[..i][k];
      } else {
        assert s[k] == s[i + 1..][k - i - 1];
      }
    }
    forall a, b | 0 <= a < b < |s|
      ensures s[a].id != s[b].id
    {
      if a != i && b != i {
        assert (if a < i then a else a - 1) < (if b < i then b else b - 1);
      }
    }
  }

  // ---------------------------------------------------------------------
  // Saving and loading

  function MapToString(rot: seq<Entry>): (ls: seq<string>)
    ensures |ls| == |rot|
    ensures forall i :: 0 <= i < |rot| ==> ls[i] == MarqueeToString(rot[i].m)
  {
    if |rot| == 0 then [] else [MarqueeToString(rot[0].m)] + MapToString(rot[1..])
  }

  /** The lines `saveMarqueeMessages` writes to the rotation file: the
      `toString` of every entry, oldest first. */
  function SaveLines(rot: seq<Entry>): seq<string> {
    Seqs.Reverse(MapToString(rot))
  }

  /** The rotation file's text: `toFile` ends every line with a newline. */
  function SaveFile(rot: seq<Entry>): string {
    TextFile.WriteFile(SaveLines(rot))
  }

  /** The plain-text file's text: the texts, oldest first. */
  function SaveStrings(rot: seq<Entry>): string {
    TextFile.WriteFile(Seqs.Reverse(Texts(rot)))
  }

  /** One line of the rotation file: `DEFAULT` lines become `User`,
      `CHONKYMARQUEE` lines `Chonky`; anything else, or a line that throws,
      is dropped. */
  function LoadLine(line: string): (m: Option<Marquee>)
    ensures m.Some? ==> |Split(line, VT)| >= 2 && m.value.str == Split(line, VT)[1]
    ensures m.Some? ==> m.value.kind == User || m.value.kind == Chonky
    ensures m.Some? ==> m.value.mtype == DefaultType(m.value.kind)
  {
    var parts := Split(line, VT);
    match ValueOf(parts[0])
    case None => None
    case Some(t) =>
      var parsed :=
        if t == DEFAULT then FromString(User, line)
        else if t == CHONKYMARQUEE then FromString(Chonky, line)
        else Fail(IllegalArgument);
      if parsed.Ok? then
        assert parsed.value.mtype == t;
        Some(parsed.value)
      else None
  }

  /** The `mapNotNull`-and-`filter` pipeline over the file's lines. */
  function ParseLines(lines: seq<string>): (ms: seq<Marquee>)
    ensures |ms| <= |lines|
    ensures forall i :: 0 <= i < |ms| ==> !IsBlank(ms[i].str)
  {
    if |lines| == 0 then []
    else
      var m := LoadLine(lines[0]);
      (if m.Some? && !IsBlank(m.value.str) then [m.value] else []) + ParseLines(lines[1..])
  }

  /** `loadUserMessages`: the lines `lineSequence` reads from the file's
      text, parsed, newest first. */
  function LoadUserMessages(file: string): seq<Marquee> {
    Seqs.Reverse(ParseLines(TextFile.ReaderLines(file)))
  }

  /** What an entry comes back as: a `DEFAULT` entry as a `User`, a
      `CHONKYMARQUEE` entry as a `Chonky`, with the same text. */
  function Reloaded(m: Marquee): Marquee {
    if m.mtype == CHONKYMARQUEE then NewMarquee(Chonky, m.str) else NewMarquee(User, m.str)
  }

  function MapReloaded(ms: seq<Marquee>): (rs: seq<Marquee>)
    ensures |rs| == |ms|
    ensures forall i :: 0 <= i < |ms| ==> rs[i] == Reloaded(ms[i])
  {
    if |ms| == 0 then [] else [Reloaded(ms[0])] + MapReloaded(ms[1..])
  }

  function Marquees(rot: seq<Entry>): (ms: seq<Marquee>)
    ensures |ms| == |rot|
    ensures forall i :: 0 <= i < |rot| ==> ms[i] == rot[i].m
  {
    if |rot| == 0 then [] else [rot[0].m] + Marquees(rot[1..])
  }

  /** An entry the file format can carry: a default or Chonky type and a
      non-blank text free of VT and of line breaks. */
  predicate Saveable(m: Marquee) {
    && (m.mtype == DEFAULT || m.mtype == CHONKYMARQUEE)
    && !IsBlank(m.str)
    && (forall i :: 0 <= i < |m.str| ==> m.str[i] != VT)
    && TextFile.IsSingleLine(m.str)
  }

  /** The line of a saveable entry holds no line break. */
  lemma SavedLineIsSingle(m: Marquee)
    requires Saveable(m)
    ensures TextFile.IsSingleLine(MarqueeToString(m))
  {
    var line := MarqueeToString(m);
    var n := |TypeName(m.mtype)|;
    forall i | 0 <= i < |line|
      ensures !TextFile.IsLineBreak(line[i])
    {
      if i > n {
        assert line[i] == m.str[i - n - 1];
      }
    }
  }

  lemma SavedLinesAreSingle(rot: seq<Entry>)
    requires forall i :: 0 <= i < |rot| ==> Saveable(rot[i].m)
    ensures forall k :: 0 <= k < |SaveLines(rot)| ==> TextFile.IsSingleLine(SaveLines(rot)[k])
  {
    var ml := MapToString(rot);
    var ls := Seqs.Reverse(ml);
    forall k | 0 <= k < |ls|
      ensures TextFile.IsSingleLine(ls[k])
    {
      var j := |rot| - 1 - k;
      assert ls[k] == ml[j];
      assert ml[j] == MarqueeToString(rot[j].m);
      SavedLineIsSingle(rot[j].m);
    }
  }

  lemma LoadLineOfSaved(m: Marquee)
    requires Saveable(m)
    ensures LoadLine(MarqueeToString(m)) == Some(Reloaded(m))
  {
    var k := if m.mtype == DEFAULT then User else Chonky;
    var m' := Marquee(k, m.str, m.mtype);
    assert MarqueeToString(m') == MarqueeToString(m);
    MarqueeRoundTrip(m');
    TypeNameHasNoVT(m.mtype);
    SplitAtFirst(TypeName(m.mtype), VT, m.str);
    ValueOfTypeName(m.mtype);
  }

  lemma {:induction false} ParseSavedLines(rot: seq<Entry>)
    requires forall i :: 0 <= i < |rot| ==> Saveable(rot[i].m)
    ensures ParseLines(MapToString(rot)) == MapReloaded(Marquees(rot))
  {
    if |rot| > 0 {
      LoadLineOfSaved(rot[0].m);
      assert !IsBlank(Reloaded(rot[0].m).str);
      assert MapToString(rot)[1..] == MapToString(rot[1..]);
      ParseSavedLines(rot[1..]);
    }
  }

  lemma {:induction false} ParseLinesOfReversed(rot: seq<Entry>)
    requires forall i :: 0 <= i < |rot| ==> Saveable(rot[i].m)
    ensures ParseLines(Seqs.Reverse(MapToString(rot))) == Seqs.Reverse(MapReloaded(Marquees(rot)))
  {
    var rr := Seqs.Reverse(rot);
    forall i | 0 <= i < |rr|
      ensures Saveable(rr[i].m)
    {
      assert rr[i] == rot[|rot| - 1 - i];
    }
    var ls, ls' := Seqs.Reverse(MapToString(rot)), MapToString(rr);
    assert ls == ls' by {
      forall i | 0 <= i < |rr|
        ensures ls[i] == ls'[i]
      {
        assert rr[i] == rot[|rot| - 1 - i];
      }
    }
    ParseSavedLines(rr);
    var ms, ms' := MapReloaded(Marquees(rr)), Seqs.Reverse(MapReloaded(Marquees(rot)));
    assert ms == ms' by {
      forall i | 0 <= i < |rr|
        ensures ms[i] == ms'[i]
      {
        assert rr[i] == rot[|rot| - 1 - i];
      }
    }
  }

  /** Saving and loading gives the rotation's entries back in order, each
      as `Reloaded` says: `User` and `Chonky` entries unchanged, a
      `GPTQuery` as a `User` and a `GPTReply` as a `Chonky`. */
  lemma SaveLoadRoundTrip(rot: seq<Entry>)
    requires forall i :: 0 <= i < |rot| ==> Saveable(rot[i].m)
    ensures LoadUserMessages(SaveFile(rot)) == MapReloaded(Marquees(rot))
    ensures forall i :: 0 <= i < |rot| ==> rot[i].m.kind in {User, Chonky} && rot[i].m.mtype == DefaultType(rot[i].m.kind) ==> LoadUserMessages(SaveFile(rot))[i] == rot[i].m
  {
    SavedLinesAreSingle(rot);
    TextFile.ReadWriteRoundTrip(SaveLines(rot));
    ParseLinesOfReversed(rot);
    Seqs.ReverseReverse(MapReloaded(Marquees(rot)));
  }

  /** A text holding a line break does not come back: the file holds two
      lines, the first loads as the text before the break, and the second,
      no type name, makes `valueOf` throw and is dropped. */
  lemma LineBreakEntryLost(id: nat, a: string, b: string)
    requires Saveable(NewMarquee(User, a))
    requires TextFile.IsSingleLine(b) && (forall j :: 0 <= j < |b| ==> b[j] != VT)
    requires ValueOf(b).None?
    ensures LoadUserMessages(SaveFile([Entry(id, NewMarquee(User, a + "\n" + b))])) == [NewMarquee(User, a)]
  {
    var m := NewMarquee(User, a + "\n" + b);
    var x := MarqueeToString(NewMarquee(User, a));
    SavedSingleton(id, m);
    BrokenMarqueeString(a, b);
    var f := SaveFile([Entry(id, m)]);
    SavedLineIsSingle(NewMarquee(User, a));
    TextFile.LineBreakSplitsItem(x, b);
    assert TextFile.ReaderLines(f) == [x, b];
    BrokenLinesParse(a, b);
    assert Seqs.Reverse([NewMarquee(User, a)]) == [NewMarquee(User, a)];
  }

  /** A one-entry rotation is saved as that entry's line. */
  lemma SavedSingleton(id: nat, m: Marquee)
    ensures SaveFile([Entry(id, m)]) == TextFile.WriteFile([MarqueeToString(m)])
  {
    assert MapToString([Entry(id, m)]) == [MarqueeToString(m)];
    assert Seqs.Reverse([MarqueeToString(m)]) == [MarqueeToString(m)];
  }

  /** The saved line of a text with a line break is the saved line of its
      first part, the break, and the rest. */
  lemma BrokenMarqueeString(a: string, b: string)
    ensures MarqueeToString(NewMarquee(User, a + "\n" + b)) == MarqueeToString(NewMarquee(User, a)) + "\n" + b
  {
  }

  lemma BrokenLinesParse(a: string, b: string)
    requires Saveable(NewMarquee(User, a))
    requires forall j :: 0 <= j < |b| ==> b[j] != VT
    requires ValueOf(b).None?
    ensures ParseLines([MarqueeToString(NewMarquee(User, a)), b]) == [NewMarquee(User, a)]
  {
    var x := MarqueeToString(NewMarquee(User, a));
    LoadLineOfSaved(NewMarquee(User, a));
    SplitOfDelimiterFree(b, VT);
    assert LoadLine(b) == None;
    assert [x, b][1..] == [b];
    assert ParseLines([b]) == [];
  }

  /** A blank entry is not saved back: it is dropped on loading. */
  lemma BlankEntryDropped(m: Marquee)
    requires IsBlank(m.str)
    requires forall i :: 0 <= i < |m.str| ==> m.str[i] != VT
    ensures ParseLines([MarqueeToString(m)]) == []
  {
    TypeNameHasNoVT(m.mtype);
    SplitAtFirst(TypeName(m.mtype), VT, m.str);
    SplitOfDelimiterFree(m.str, VT);
  }

  /** A line of another type is dropped. */
  lemma OtherTypeDropped(t: MsgType, text: string)
    requires t != DEFAULT && t != CHONKYMARQUEE
    ensures LoadLine(TypeName(t) + [VT] + text) == None
  {
    TypeNameHasNoVT(t);
    SplitAtFirst(TypeName(t), VT, text);
    ValueOfTypeName(t);
  }
}
