/** `POST /api/webauthn/register/generate-options`
    (src/app/api/webauthn/register/generate-options/route.ts): the rejection ladder,
    the arguments handed to the options generator, and the one challenge save. */
module GenerateOptions {
  import opened JsValues
  import Utf8

  /** The columns of a reservation row the route selects. */
  datatype Reservation = Reservation(id: string, guestName: Option<string>)

  /** A row of the passkeys table. */
  datatype Passkey = Passkey(id: string, reservationId: string)

  /** The request body: `Unparseable` is a body that is not JSON at all or whose
      destructuring throws (such as `null`); otherwise an object whose `reservationId`
      may be absent. */
  datatype RequestBody = Unparseable | Body(reservationId: Option<string>)

  /** The early returns of the handler, in the order they are tried. */
  datatype Rejection = MissingId | NotFound | AlreadyRegistered

  /** `authenticatorSelection` (section 5.4.4 of the W3C Web Authentication Level 2 recommendation). */
  datatype AuthenticatorSelection = AuthenticatorSelection(residentKey: string, userVerification: string, authenticatorAttachment: string)

  /** The argument record given to `generateRegistrationOptions`. */
  datatype OptionsArgs = OptionsArgs(
    rpName: string,
    rpID: string,
    userID: seq<Utf8.byte>,
    userName: string,
    attestationType: string,
    authenticatorSelection: AuthenticatorSelection,
    excludeCredentials: seq<string>)

  /** What the generator returns: the requested options with a fresh random challenge. */
  datatype RegistrationOptions = RegistrationOptions(args: OptionsArgs, challenge: string)

  /** A JSON reply: the options with the stored challenge's id, or an error with its status. */
  datatype Reply = Ok(options: RegistrationOptions, challengeId: nat) | Error(status: nat, message: string)

  function Status(r: Rejection): nat {
    match r
    case MissingId => 400
    case NotFound => 404
    case AlreadyRegistered => 409
  }

  function Message(r: Rejection): string {
    match r
    case MissingId => "Reservation ID is required"
    case NotFound => "Reservation not found"
    case AlreadyRegistered => "Passkey already registered for this reservation"
  }

  /** The reply of the catch block. */
  const InternalError: Reply := Error(500, "Failed to generate registration options")

  /** The passkey rows of the reservation, in table order: what
      `.eq('reservation_id', reservationId)` selects. */
  function Matching(passkeys: seq<Passkey>, reservationId: string): (m: seq<Passkey>)
    ensures |m| <= |passkeys|
    ensures forall p :: p in m <==> p in passkeys && p.reservationId == reservationId
    ensures forall p :: multiset(m)[p] == if p.reservationId == reservationId then multiset(passkeys)[p] else 0
  {
    if passkeys == [] then []
    else
      assert passkeys == [passkeys[0]] + passkeys[1..];
      (if passkeys[0].reservationId == reservationId then [passkeys[0]] else []) + Matching(passkeys[1..], reservationId)
  }

  /** `.single()` hands back a row only when the query selects exactly one; with none or
      with several it reports an error and `existingPasskey` is null. */
  predicate SinglePasskey(passkeys: seq<Passkey>, reservationId: string) {
    |Matching(passkeys, reservationId)| == 1
  }

  /** The ladder of early returns: a falsy id, then the reservation lookup, then the
      passkey lookup. On success it yields the reservation row. */
  function Validate(reservations: map<string, Reservation>, passkeys: seq<Passkey>, reservationId: Option<string>): (r: Result<Reservation, Rejection>)
    ensures (r == Failure(MissingId)) <==> !Truthy(reservationId)
    ensures (r == Failure(NotFound)) <==> Truthy(reservationId) && reservationId.value !in reservations
    ensures (r == Failure(AlreadyRegistered))
              <==> Truthy(reservationId) && reservationId.value in reservations && SinglePasskey(passkeys, reservationId.value)
    ensures (r.Success?)
              <==> Truthy(reservationId) && reservationId.value in reservations && !SinglePasskey(passkeys, reservationId.value)
    ensures r.Success? ==> r.value == reservations[reservationId.value]
  {
    if !Truthy(reservationId) then Failure(MissingId)
    else if reservationId.value !in reservations then Failure(NotFound)
    else if SinglePasskey(passkeys, reservationId.value) then Failure(AlreadyRegistered)
    else Success(reservations[reservationId.value])
  }

  /** A falsy id is rejected before either table is consulted. */
  lemma MissingIdIgnoresTables(r1: map<string, Reservation>, p1: seq<Passkey>,
                               r2: map<string, Reservation>, p2: seq<Passkey>, reservationId: Option<string>)
    requires !Truthy(reservationId)
    ensures Validate(r1, p1, reservationId) == Validate(r2, p2, reservationId) == Failure(MissingId)
  {
  }

  /** An unknown reservation is rejected before the passkeys table is consulted. */
  lemma NotFoundIgnoresPasskeys(reservations: map<string, Reservation>, p1: seq<Passkey>, p2: seq<Passkey>, id: string)
    requires id != "" && id !in reservations
    ensures Validate(reservations, p1, Some(id)) == Validate(reservations, p2, Some(id)) == Failure(NotFound)
  {
  }

  /** A reservation without any passkey row passes the passkey step. */
  lemma NoPasskeyPasses(reservations: map<string, Reservation>, passkeys: seq<Passkey>, id: string)
    requires id != "" && id in reservations
    requires forall p :: p in passkeys ==> p.reservationId != id
    ensures Validate(reservations, passkeys, Some(id)) == Success(reservations[id])
  {
    assert Matching(passkeys, id) == [] by {
      if Matching(passkeys, id) != [] {
        assert Matching(passkeys, id)[0] in Matching(passkeys, id);
      }
    }
  }

  /** A reservation with exactly one passkey row, wherever it stands in the table, is
      rejected with 409. */
  lemma OnePasskeyRejects(reservations: map<string, Reservation>, before: seq<Passkey>, p: Passkey, after: seq<Passkey>, id: string)
    requires id != "" && id in reservations && p.reservationId == id
    requires forall q :: q in before + after ==> q.reservationId != id
    ensures Validate(reservations, before + [p] + after, Some(id)) == Failure(AlreadyRegistered)
  {
    var ps := before + [p] + after;
    var m := Matching(ps, id);
    assert multiset(ps) == multiset(before + after) + multiset{p} by {
      assert ps == before + ([p] + after);
    }
    assert multiset(before + after)[p] == 0;
    forall q
      ensures multiset(m)[q] == multiset{p}[q]
    {
      if q.reservationId == id && q != p {
        assert multiset(before + after)[q] == 0;
      }
    }
    assert multiset(m) == multiset{p};
    assert |m| == |multiset(m)| == 1;
  }

  /** `.single()` is not a presence test: a reservation with two or more passkey rows
      also passes the passkey step, and registration goes on to save a challenge. */
  lemma SeveralPasskeysPass(reservations: map<string, Reservation>, p1: Passkey, p2: Passkey, rest: seq<Passkey>, id: string)
    requires id != "" && id in reservations
    requires p1.reservationId == id && p2.reservationId == id
    ensures Validate(reservations, [p1, p2] + rest, Some(id)) == Success(reservations[id])
  {
    var ps := [p1, p2] + rest;
    assert ps[1..] == [p2] + rest;
    assert ([p2] + rest)[1..] == rest;
    assert Matching(ps, id) == [p1] + Matching([p2] + rest, id);
    assert Matching([p2] + rest, id) == [p2] + Matching(rest, id);
  }

  /** The arguments for a reservation that passed the ladder. */
  function OptionsFor(rpName: string, rpID: string, reservationId: string, reservation: Reservation): (args: OptionsArgs)
    ensures args.rpName == rpName && args.rpID == rpID
    ensures args.userID == Utf8.Encode(reservationId)
    ensures Truthy(reservation.guestName) ==> args.userName == reservation.guestName.value
    ensures !Truthy(reservation.guestName) ==> args.userName == reservationId
    ensures args.attestationType == "none"
    ensures args.authenticatorSelection == AuthenticatorSelection("required", "required", "platform")
    ensures args.excludeCredentials == []
  {
    OptionsArgs(
      rpName,
      rpID,
      Utf8.Encode(reservationId),
      OrElse(reservation.guestName, reservationId),
      "none",
      AuthenticatorSelection("required", "required", "platform"),
      [])
  }

  /** Distinct reservations get distinct user handles. */
  lemma UserIdsDistinct(rpName: string, rpID: string, id1: string, id2: string, res1: Reservation, res2: Reservation)
    requires id1 != id2
    ensures OptionsFor(rpName, rpID, id1, res1).userID != OptionsFor(rpName, rpID, id2, res2).userID
  {
    if Utf8.Encode(id1) == Utf8.Encode(id2) {
      Utf8.EncodeInjective(id1, id2);
    }
  }

  /** The tables the route reads and the challenge store it writes. */
  class Backend {
    var reservations: map<string, Reservation>
    var passkeys: seq<Passkey>
    /** Saved challenges; a challenge's id is its position. */
    var challenges: seq<string>
    /** Relying-party name and id from the static configuration. */
    const rpName: string
    const rpID: string

    constructor (rpName: string, rpID: string, reservations: map<string, Reservation>, passkeys: seq<Passkey>)
      ensures this.rpName == rpName && this.rpID == rpID
      ensures this.reservations == reservations && this.passkeys == passkeys && challenges == []
    {
      this.rpName, this.rpID := rpName, rpID;
      this.reservations, this.passkeys, this.challenges := reservations, passkeys, [];
    }

    /** `saveChallenge`: stores the challenge and returns a fresh id for it. */
    method SaveChallenge(challenge: string) returns (id: nat)
      modifies this`challenges
      ensures challenges == old(challenges) + [challenge]
      ensures id == |old(challenges)| && challenges[id] == challenge
    {
      id := |challenges|;
      challenges := challenges + [challenge];
    }

    /** The `POST` handler. `challenge` stands for the random value the options
        generator draws. */
    method Post(body: RequestBody, challenge: string) returns (reply: Reply)
      modifies this`challenges
      ensures body.Unparseable? ==> reply == InternalError && challenges == old(challenges)
      ensures body.Body? && Validate(reservations, passkeys, body.reservationId).Failure? ==>
                var rejection := Validate(reservations, passkeys, body.reservationId).error;
                reply == Error(Status(rejection), Message(rejection)) && challenges == old(challenges)
      ensures body.Body? && Validate(reservations, passkeys, body.reservationId).Success? ==>
                && reply.Ok?
                && reply.options == RegistrationOptions(
                     OptionsFor(rpName, rpID, body.reservationId.value, Validate(reservations, passkeys, body.reservationId).value),
                     challenge)
                && challenges == old(challenges) + [reply.options.challenge]
                && reply.challengeId == |old(challenges)|
      ensures reply.Ok? <==> |challenges| == |old(challenges)| + 1
    {
      if body.Unparseable? {
        return InternalError;
      }
      var checked := Validate(reservations, passkeys, body.reservationId);
      if checked.Failure? {
        return Error(Status(checked.error), Message(checked.error));
      }
      var id := body.reservationId.value;
      var options := RegistrationOptions(OptionsFor(rpName, rpID, id, checked.value), challenge);
      var challengeId := SaveChallenge(options.challenge);
      reply := Ok(options, challengeId);
    }
  }
}
