/** The process-wide session store: a table from session id to the text chunks uploaded
    for that session, in arrival order, with the three operations that act on it. */
module Sessions {
  import opened Text
  import opened Request

  type SessionId = string
  type Table = map<SessionId, seq<string>>

  /** Reply of the merge endpoint: the merged code, or "No code found" with status 404. */
  datatype MergeReply = Code(code: string) | NoCodeFound

  const ChunkReceived: string := "chunk received"
  const ResetStatus: string := "session reset"

  /** What the store keeps true: a session is only ever created by an upload, which
      appends at once, so no stored list is empty. */
  predicate NoEmptySession(t: Table)
  {
    forall id :: id in t ==> t[id] != []
  }

  /** The chunks stored for id, or none when the session is absent. */
  function Chunks(t: Table, id: SessionId): seq<string>
  {
    if id in t then t[id] else []
  }

  /** The table after one chunk is uploaded for id. */
  function AfterUpload(t: Table, id: SessionId, text: string): (t': Table)
    ensures t'.Keys == t.Keys + {id}
    ensures t'[id] == Chunks(t, id) + [text]
    ensures forall other :: other in t && other != id ==> t'[other] == t[other]
    ensures NoEmptySession(t) ==> NoEmptySession(t')
  {
    t[id := Chunks(t, id) + [text]]
  }

  /** The table after the session id is reset. */
  function AfterReset(t: Table, id: SessionId): (t': Table)
    ensures t'.Keys == t.Keys - {id}
    ensures forall other :: other in t' ==> t'[other] == t[other]
    ensures id !in t ==> t' == t
    ensures NoEmptySession(t) ==> NoEmptySession(t')
  {
    t - {id}
  }

  /** The merge endpoint's answer for id. */
  function MergeOf(t: Table, id: SessionId): (r: MergeReply)
    ensures r.Code? <==> id in t
  {
    if id in t then Code(Join(t[id])) else NoCodeFound
  }

  /** The table after chunks are uploaded for id one after the other. */
  function AfterUploads(t: Table, id: SessionId, texts: seq<string>): Table
    decreases |texts|
  {
    if texts == [] then t else AfterUploads(AfterUpload(t, id, texts[0]), id, texts[1..])
  }

  /** Resetting twice is resetting once. */
  lemma ResetIdempotent(t: Table, id: SessionId)
    ensures AfterReset(AfterReset(t, id), id) == AfterReset(t, id)
  {
  }

  /** After a reset, a merge of the same session is not found. */
  lemma MergeAfterReset(t: Table, id: SessionId)
    ensures MergeOf(AfterReset(t, id), id) == NoCodeFound
  {
  }

  /** A merge after one more upload is the previous merge followed by a newline and the
      new chunk, or the chunk alone for a session that did not exist. */
  lemma MergeAfterUpload(t: Table, id: SessionId, text: string)
    requires NoEmptySession(t)
    ensures MergeOf(AfterUpload(t, id, text), id) ==
              if id in t then Code(MergeOf(t, id).code + "\n" + text) else Code(text)
  {
    if id in t {
      JoinAppend(t[id], text);
    }
  }

  /** A merged session splits on newlines back into its chunks when none of them holds a newline. */
  lemma MergeSplits(t: Table, id: SessionId)
    requires NoEmptySession(t) && id in t
    requires forall k :: 0 <= k < |t[id]| ==> '\n' !in t[id][k]
    ensures Split(MergeOf(t, id).code) == t[id]
  {
    SplitJoin(t[id]);
  }

  /** Uploads append their texts, in order, to the session's list and leave every other
      session as it was. */
  lemma {:induction false} AfterUploadsAppends(t: Table, id: SessionId, texts: seq<string>)
    ensures AfterUploads(t, id, texts).Keys == if texts == [] then t.Keys else t.Keys + {id}
    ensures Chunks(AfterUploads(t, id, texts), id) == Chunks(t, id) + texts
    ensures forall other :: other in t && other != id ==> AfterUploads(t, id, texts)[other] == t[other]
    decreases |texts|
  {
    if texts != [] {
      var t1 := AfterUpload(t, id, texts[0]);
      AfterUploadsAppends(t1, id, texts[1..]);
      assert texts == [texts[0]] + texts[1..];
    }
  }

  /** Uploading c1 .. cn into a fresh or just-reset session and then merging gives
      c1 + "\n" + ... + "\n" + cn; with no upload the merge is not found. */
  lemma UploadsThenMerge(t: Table, id: SessionId, texts: seq<string>)
    ensures MergeOf(AfterUploads(AfterReset(t, id), id, texts), id) ==
              if texts == [] then NoCodeFound else Code(Join(texts))
  {
    var cleared := AfterReset(t, id);
    AfterUploadsAppends(cleared, id, texts);
    assert Chunks(cleared, id) == [];
    assert Chunks(AfterUploads(cleared, id, texts), id) == texts;
  }

  /** The shared store the endpoints act on. */
  class SessionStore {
    var table: Table

    ghost predicate Valid()
      reads this
    {
      NoEmptySession(table)
    }

    constructor ()
      ensures Valid() && table == map[]
    {
      table := map[];
    }

    /** Stores the text read from an uploaded image and reports how many lines it has. */
    method UploadChunk(id: SessionId, text: string) returns (status: string, lines: nat)
      requires Valid()
      modifies this
      ensures Valid()
      ensures table == AfterUpload(old(table), id, text)
      ensures status == ChunkReceived && lines == LineCount(text)
    {
      if id !in table {
        table := table[id := []];
      }
      table := table[id := table[id] + [text]];
      status, lines := ChunkReceived, LineCount(text);
    }

    /** The session's chunks joined with newlines in arrival order; the store is not changed. */
    method GetMergedCode(id: Field) returns (r: MergeReply)
      ensures r == if id.Str? then MergeOf(table, id.value) else NoCodeFound
      ensures r.Code? ==> r.code == Join(table[id.value])
    {
      if id.Missing? || id.value !in table {
        return NoCodeFound;
      }
      r := Code(Join(table[id.value]));
    }

    /** Forgets the session if it exists; succeeds either way. */
    method ResetSession(id: Field) returns (status: string)
      requires Valid()
      modifies this
      ensures Valid()
      ensures table == if id.Str? then AfterReset(old(table), id.value) else old(table)
      ensures status == ResetStatus
    {
      if id.Str? && id.value in table {
        table := table - {id.value};
      }
      status := ResetStatus;
    }
  }
}
