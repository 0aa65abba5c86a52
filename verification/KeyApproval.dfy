/**
  The approval list in the global .claude.json (agent_wrap/domain/providers/key_approval.py).
  An entry is an approval id; the list also holds ids the user approved by hand.
  */
module KeyApproval {

  type ApprovalId = nat

  function Approved(list: seq<ApprovalId>, id: ApprovalId): (r: seq<ApprovalId>)
    ensures id in r && list <= r
    ensures multiset(r)[id] == if id in list then multiset(list)[id] else 1
    ensures forall other :: other != id ==> multiset(r)[other] == multiset(list)[other]
  {
    if id in list then list else list + [id]
  }

  /** Python's `list.remove`: drops the first occurrence; the caller has checked membership. */
  function Unapproved(list: seq<ApprovalId>, id: ApprovalId): (r: seq<ApprovalId>)
    ensures multiset(r) == multiset(list) - multiset{id}
  {
    if list == [] then []
    else if list[0] == id then
      assert list == [id] + list[1..];
      list[1..]
    else
      assert list == [list[0]] + list[1..];
      [list[0]] + Unapproved(list[1..], id)
  }

  /** Approving a fresh id and un-approving it later leaves the user's list as it was, order included. */
  lemma ApproveThenUnapprove(list: seq<ApprovalId>, id: ApprovalId)
    requires id !in list
    ensures Unapproved(Approved(list, id), id) == list
  {
    UnapprovedLast(list, id);
  }

  lemma {:induction false} UnapprovedLast(list: seq<ApprovalId>, id: ApprovalId)
    requires id !in list
    ensures Unapproved(list + [id], id) == list
  {
    if list == [] {
      assert [] + [id] == [id] && [id][1..] == [];
    } else {
      Apart(list, id);
      UnapprovedLast(list[1..], id);
    }
  }

  lemma Apart(list: seq<ApprovalId>, id: ApprovalId)
    requires list != []
    ensures (list + [id])[0] == list[0] && (list + [id])[1..] == list[1..] + [id] && list == [list[0]] + list[1..]
  {
  }

  /** The first occurrence goes, and nothing else moves. */
  lemma {:induction false} FirstGoes(list: seq<ApprovalId>, id: ApprovalId) returns (i: nat)
    requires id in list
    ensures i < |list| && list[i] == id && id !in list[..i] && Unapproved(list, id) == list[..i] + list[i + 1..]
  {
    i := 0;
    if list[0] != id {
      var j := FirstGoes(list[1..], id);
      Shifted(list, j);
      i := j + 1;
    }
  }

  lemma Shifted(list: seq<ApprovalId>, j: nat)
    requires j + 1 < |list|
    ensures list[..j + 1] == [list[0]] + list[1..][..j] && list[j + 1] == list[1..][j]
    ensures [list[0]] + (list[1..][..j] + list[1..][j + 1..]) == list[..j + 1] + list[j + 2..]
  {
  }

  /** The document: read, edited in place, and written back only when something changed. */
  class ClaudeJson {
    var approved: seq<ApprovalId>
    var writes: nat

    constructor (approved: seq<ApprovalId>)
      ensures this.approved == approved && writes == 0
    {
      this.approved := approved;
      writes := 0;
    }

    method ApproveMasterKey(id: ApprovalId)
      modifies this
      ensures approved == Approved(old(approved), id)
      ensures writes == old(writes) + if approved == old(approved) then 0 else 1
    {
      if id !in approved {
        approved := approved + [id];
        writes := writes + 1;
      }
    }

    method UnapproveMasterKey(id: ApprovalId)
      modifies this
      ensures approved == Unapproved(old(approved), id)
      ensures writes == old(writes) + if id in old(approved) then 1 else 0
      ensures id in old(approved) ==>
                exists i :: 0 <= i < |old(approved)| && old(approved)[i] == id && id !in old(approved)[..i]
                            && approved == old(approved)[..i] + old(approved)[i + 1..]
    {
      if id in approved {
        ghost var i := FirstGoes(approved, id);
        approved := Unapproved(approved, id);
        writes := writes + 1;
      } else {
        UnapprovedAbsent(approved, id);
      }
    }
  }

  lemma {:induction false} UnapprovedAbsent(list: seq<ApprovalId>, id: ApprovalId)
    requires id !in list
    ensures Unapproved(list, id) == list
  {
    if list != [] {
      UnapprovedAbsent(list[1..], id);
    }
  }
}
