/**
The engine's rulings and how the module fetches them. A ruling is the status of the
intervention the engine holds on a transaction, 0 when it holds none.
 */
module Interventions {

  const NGX_ERROR := -1

  /** A ruling that must not be passed over; status 200 is none. */
  predicate Blocks(ruling: nat) {
    ruling != 0 && ruling != 200
  }

  /** What a poll makes of the ruling: once headers are on the wire it can only be an error. */
  function Fetched(ruling: nat, headerSent: bool): int {
    if !Blocks(ruling) then 0 else if headerSent then NGX_ERROR else ruling
  }

  /** A poll is silent on no intervention and on status 200; any other status is handed on as
      it is, or is an error once the headers have been sent. */
  lemma FetchedMeaning(ruling: nat, headerSent: bool)
    ensures ruling == 0 || ruling == 200 ==> Fetched(ruling, headerSent) == 0
    ensures ruling != 0 && ruling != 200 ==> Fetched(ruling, headerSent) == if headerSent then NGX_ERROR else ruling
    ensures Fetched(ruling, headerSent) == 0 <==> !Blocks(ruling)
  {
  }

  predicate IsRedirect(status: int) {
    status == 301 || status == 302 || status == 303 || status == 307 || status == 308
  }

  /** Every refusal is answered by what the poll said, if that was a status, and otherwise by
      500; under an error page only failures refuse. */
  function AnswerOf(spoken: int, errorPage: bool): int {
    if spoken > 0 && !errorPage then spoken else 500
  }

  /** After a phase a ruling is fetched only if the phase reported one; a failed phase is an
      error of its own. */
  function PollAfter(pret: int, ruling: nat, headerSent: bool): int {
    if pret < 0 then 500 else if pret != 1 then 0 else Fetched(ruling, headerSent)
  }

  /** The phase failed, or it was interrupted and the ruling can still be sent. */
  predicate Denies(pret: int, ruling: nat, headerSent: bool) {
    pret < 0 || (pret == 1 && Blocks(ruling) && !headerSent)
  }

  /** The phase was interrupted when it was too late to say so. */
  predicate TooLate(pret: int, ruling: nat, headerSent: bool) {
    pret == 1 && Blocks(ruling) && headerSent
  }

  /** A poll after a phase gives a status exactly when the phase denies, and an error exactly
      when it was interrupted with the headers already sent. */
  lemma PollMeaning(pret: int, ruling: nat, headerSent: bool)
    ensures PollAfter(pret, ruling, headerSent) > 0 <==>
              pret < 0 || (pret == 1 && ruling != 0 && ruling != 200 && !headerSent)
    ensures PollAfter(pret, ruling, headerSent) < 0 <==> pret == 1 && ruling != 0 && ruling != 200 && headerSent
    ensures PollAfter(pret, ruling, headerSent) > 0 <==> Denies(pret, ruling, headerSent)
    ensures PollAfter(pret, ruling, headerSent) < 0 <==> TooLate(pret, ruling, headerSent)
  {
  }
}
