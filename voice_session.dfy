/**
 * Voice sessions: the stored record of one recording (its audio path, the
 * speech-to-text result and, later, the text the user confirmed), the table
 * that holds them, and `VoiceSessionService`'s three operations on it.
 *
 * A session's UUID is the record's own default (`uuid4`), not something the
 * caller chooses; the model takes the freshly drawn value as a parameter,
 * and a draw that collides with a stored UUID fails on the unique column.
 */
module VoiceSessions {
  import opened Wrappers
  import opened Sequences

  type Uuid = nat

  datatype VoiceSession = VoiceSession(
    id: int, sessionId: Uuid, userId: int, audioPath: string, sttText: string,
    sttConfidence: real, userConfirmedText: Option<string>)

  datatype StoreError = DuplicateSessionId

  function VoiceId(v: VoiceSession): int { v.id }

  function SessionKey(v: VoiceSession): int { v.sessionId }

  function FindBySessionId(rows: seq<VoiceSession>, sessionId: Uuid): (r: Option<VoiceSession>)
    ensures r.Some? ==> r.value in rows && r.value.sessionId == sessionId
    ensures r.None? <==> forall i :: 0 <= i < |rows| ==> rows[i].sessionId != sessionId
  {
    FirstMatch(rows, (v: VoiceSession) => v.sessionId == sessionId)
  }

  /** With unique UUIDs, the lookup finds exactly the row that carries the UUID. */
  lemma FindBySessionIdUnique(rows: seq<VoiceSession>, i: nat)
    requires UniqueBy(rows, SessionKey) && i < |rows|
    ensures FindBySessionId(rows, rows[i].sessionId) == Some(rows[i])
  {
    FindByUniqueKey(rows, SessionKey, i, (v: VoiceSession) => v.sessionId == rows[i].sessionId);
  }

  class VoiceSessionService {
    var rows: seq<VoiceSession>
    var nextId: int

    ghost predicate Valid()
      reads this
    {
      UniqueBy(rows, VoiceId) && UniqueBy(rows, SessionKey)
      && (forall i :: 0 <= i < |rows| ==> 1 <= rows[i].id < nextId) && nextId >= 1
    }

    constructor ()
      ensures Valid() && rows == [] && nextId == 1
    {
      rows := [];
      nextId := 1;
    }

    /** `get_by_session_id`: the record with that UUID, or none. */
    function GetBySessionId(sessionId: Uuid): (r: Option<VoiceSession>)
      reads this
      ensures r == FindBySessionId(rows, sessionId)
    {
      FindBySessionId(rows, sessionId)
    }

    /**
     * `create_session`: stores the given user, path and recognition result,
     * with no confirmed text, under the next id and the freshly drawn UUID.
     */
    method CreateSession(userId: int, audioPath: string, sttText: string, sttConfidence: real, drawn: Uuid)
      returns (r: Result<VoiceSession, StoreError>)
      requires Valid()
      modifies this
      ensures Valid()
      ensures old(FindBySessionId(rows, drawn)).Some? ==>
        r == Failure(DuplicateSessionId) && rows == old(rows) && nextId == old(nextId)
      ensures old(FindBySessionId(rows, drawn)).None? ==>
        r == Success(VoiceSession(old(nextId), drawn, userId, audioPath, sttText, sttConfidence, None))
        && rows == old(rows) + [r.value] && nextId == old(nextId) + 1
      ensures r.Success? ==> GetBySessionId(drawn) == Some(r.value)
    {
      if FindBySessionId(rows, drawn).Some? {
        return Failure(DuplicateSessionId);
      }
      var v := VoiceSession(nextId, drawn, userId, audioPath, sttText, sttConfidence, None);
      rows := rows + [v];
      nextId := nextId + 1;
      FindBySessionIdUnique(rows, |rows| - 1);
      r := Success(v);
    }

    /**
     * `update_confirmation`: only the confirmed text changes, and the record
     * is written back over the stored row with its id.
     */
    method UpdateConfirmation(v: VoiceSession, confirmedText: string) returns (saved: VoiceSession)
      requires Valid()
      requires forall i :: 0 <= i < |rows| && rows[i].id == v.id ==> rows[i].sessionId == v.sessionId
      modifies this
      ensures Valid() && nextId == old(nextId)
      ensures saved == v.(userConfirmedText := Some(confirmedText))
      ensures rows == ReplaceBy(old(rows), saved, VoiceId)
    {
      saved := v.(userConfirmedText := Some(confirmedText));
      ReplaceKeepsUnique(rows, saved, VoiceId);
      ReplaceKeepsSessionKeys(rows, saved);
      rows := ReplaceBy(rows, saved, VoiceId);
    }
  }

  /** Replacing a row by one with the same id and UUID keeps the UUIDs unique. */
  lemma ReplaceKeepsSessionKeys(rows: seq<VoiceSession>, x: VoiceSession)
    requires UniqueBy(rows, SessionKey)
    requires forall i :: 0 <= i < |rows| && rows[i].id == x.id ==> rows[i].sessionId == x.sessionId
    ensures UniqueBy(ReplaceBy(rows, x, VoiceId), SessionKey)
  {
    var r := ReplaceBy(rows, x, VoiceId);
    forall i, j | 0 <= i < j < |r|
      ensures SessionKey(r[i]) != SessionKey(r[j])
    {
      assert SessionKey(r[i]) == SessionKey(rows[i]) && SessionKey(r[j]) == SessionKey(rows[j]);
    }
  }
}
