/** How the client's guards and list updaters fit the server routes: what
    the form and a row send is accepted and stored as sent, and the client's
    local update of a list reproduces what the route did to the same list. */
module Interplay {
  import opened Text
  import opened TaskModel
  import opened TaskRoutes
  import opened App

  /** Whatever the add form sends (the trimmed text of a title with a
      non-space character) passes the POST guard, and the schema's trim
      stores that very text. */
  lemma FormTitleAcceptedByCreate(typed: string)
    requires !AllSpace(typed)
    ensures !TitleMissing(Some(Trim(typed)))
    ensures CastTitle(Trim(typed)) == Trim(typed)
  {
    TrimIdempotent(typed);
  }

  /** Whatever a row sends as an edit is saved by the PUT route, and the
      stored title is exactly the text sent; `completed` is not touched. */
  lemma RowEditAcceptedByUpdate(t: Task, typed: string)
    requires Stored(t) && !AllSpace(typed)
    ensures Save(Patch(t, UpdateBody(Some(Trim(typed)), None))).Ok?
    ensures Patch(t, UpdateBody(Some(Trim(typed)), None)) == t.(title := Trim(typed))
  {
    TrimIdempotent(typed);
    PatchSaves(t, UpdateBody(Some(Trim(typed)), None));
    PatchChangesOnlySupplied(t, UpdateBody(Some(Trim(typed)), None));
  }

  /** The checkbox's request flips `completed` and nothing else. */
  lemma ToggleFlipsCompleted(t: Task)
    ensures Patch(t, UpdateBody(None, Some(!t.completed))) == t.(completed := !t.completed)
  {
    PatchChangesOnlySupplied(t, UpdateBody(None, Some(!t.completed)));
  }

  /** On a list with unique ids, the client's `map` after an update changes
      the same single entry the route replaced. */
  lemma {:induction false} ReplaceByIdIsUpdateAt(s: seq<Task>, k: nat, u: Task)
    requires k < |s|
    requires UniqueIds(s)
    ensures ReplaceById(s, s[k].id, u) == s[k := u]
  {
    var r := ReplaceById(s, s[k].id, u);
    assert forall i :: 0 <= i < |s| ==> r[i] == s[k := u][i] by {
      forall i | 0 <= i < |s| ensures r[i] == s[k := u][i] {
        if i != k {
          assert s[i].id != s[k].id by {
            if i < k { assert s[i].id != s[k].id; } else { assert s[k].id != s[i].id; }
          }
        }
      }
    }
  }

  /** On a list with unique ids, the client's `filter` after a delete
      removes the same single entry the route removed, and keeps the order
      of the others. */
  lemma {:induction false} RemoveByIdIsRemoveAt(s: seq<Task>, k: nat)
    requires k < |s|
    requires UniqueIds(s)
    ensures RemoveById(s, s[k].id) == s[..k] + s[k + 1..]
  {
    if k == 0 {
      assert s[..k] + s[k + 1..] == s[1..];
      TailUniqueIds(s);
      RemoveByIdAbsent(s[1..], s[0].id);
    } else {
      var id := s[k].id;
      assert s[0].id != id;
      assert s[1..][k - 1] == s[k];
      TailUniqueIds(s);
      RemoveByIdIsRemoveAt(s[1..], k - 1);
      assert RemoveById(s, id) == [s[0]] + RemoveById(s[1..], id);
      assert s[..k] + s[k + 1..] == [s[0]] + (s[1..][..k - 1] + s[1..][k..]);
    }
  }

  lemma TailUniqueIds(s: seq<Task>)
    requires s != [] && UniqueIds(s)
    ensures UniqueIds(s[1..])
    ensures forall i :: 0 <= i < |s[1..]| ==> s[1..][i].id != s[0].id
  {
    forall i, j | 0 <= i < j < |s[1..]| ensures s[1..][i].id != s[1..][j].id {
      assert s[1..][i] == s[i + 1] && s[1..][j] == s[j + 1];
    }
    forall i | 0 <= i < |s[1..]| ensures s[1..][i].id != s[0].id {
      assert s[1..][i] == s[i + 1];
    }
  }

  /** Filtering out an id that no entry carries changes nothing. */
  lemma {:induction false} RemoveByIdAbsent(s: seq<Task>, id: TaskId)
    requires forall i :: 0 <= i < |s| ==> s[i].id != id
    ensures RemoveById(s, id) == s
  {
    if s != [] {
      RemoveByIdAbsent(s[1..], id);
    }
  }
}
