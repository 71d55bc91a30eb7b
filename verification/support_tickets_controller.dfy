/** `/api/supporttickets`: support requests and their three-state status.
    A new ticket is `Pending`; an update may move it to any allowed state,
    and anything else is refused with the ticket left as it was. */
module SupportTicketsController {
  import opened Wrappers
  import opened Text
  import opened Http
  import opened Identity
  import opened Persistence
  import opened Queries

  const AllowedStatuses: seq<string> := ["Pending", "InProgress", "Completed"]
  const DefaultStatus: string := "Pending"

  const MsgRequired: string := "Subject i Description su obavezni."
  const MsgUnknownStatus: string := "Nepoznat status."
  const MsgNoUserId: string := "Nema korisničkog ID-a."
  const MsgStatusRequired: string := "Status je obavezan."
  const MsgAllowedStatuses: string := "Dozvoljeni statusi su: Pending, InProgress, Completed."

  /** `AllowedStatuses.Contains(s)`: an exact, case-sensitive match. */
  predicate IsAllowed(s: string) {
    s in AllowedStatuses
  }

  /** Every stored status is one of the allowed ones (or unset). */
  predicate StatusesAllowed(rows: seq<SupportTicket>) {
    forall i :: 0 <= i < |rows| ==> rows[i].status.Some? ==> IsAllowed(rows[i].status.value)
  }

  datatype CreateSupportTicketDto = CreateSupportTicketDto(
    subject: Option<string>,
    description: Option<string>,
    userId: Option<int>)

  datatype SupportTicketDto = SupportTicketDto(
    ticketId: int,
    userId: Option<int>,
    subject: string,
    description: string,
    status: string)

  /** `ToDto`: missing text shows as "", a missing status as "Pending". */
  function ToDto(t: SupportTicket): (d: SupportTicketDto)
    ensures d.ticketId == t.ticketId && d.userId == t.userId
    ensures t.subject.Some? ==> d.subject == t.subject.value
    ensures t.subject.None? ==> d.subject == ""
    ensures t.description.Some? ==> d.description == t.description.value
    ensures t.description.None? ==> d.description == ""
    ensures t.status.Some? ==> d.status == t.status.value
    ensures t.status.None? ==> d.status == DefaultStatus
  {
    SupportTicketDto(t.ticketId, t.userId, t.subject.GetOr(""), t.description.GetOr(""), t.status.GetOr(DefaultStatus))
  }

  /** A listing never shows a status outside the allowed ones when the table holds none. */
  lemma ToDtoStatusAllowed(t: SupportTicket)
    requires t.status.Some? ==> IsAllowed(t.status.value)
    ensures IsAllowed(ToDto(t).status)
  {
  }

  // ---------------------------------------------------------------- create

  /** The owner of a new ticket: the posted `UserID` when there is one, otherwise
      the caller's integer id, otherwise nobody. */
  function TicketOwner(user: Principal, dto: CreateSupportTicketDto): (owner: Option<int>)
    ensures dto.userId.Some? ==> owner == dto.userId
    ensures dto.userId.None? ==> owner == UserIdOf(user)
  {
    var fromClaim := UserIdOf(user);
    if dto.userId.Some? then dto.userId else fromClaim
  }

  /** `POST /api/supporttickets`. */
  method Create(db: TicketTable, user: Principal, dto: CreateSupportTicketDto) returns (reply: Reply<SupportTicketDto>)
    requires db.Valid()
    modifies db
    ensures db.Valid()
    ensures IsNullOrWhiteSpace(dto.subject) || IsNullOrWhiteSpace(dto.description) ==>
      reply == Failure(BadRequest, MsgRequired) && db.rows == old(db.rows)
    ensures !IsNullOrWhiteSpace(dto.subject) && !IsNullOrWhiteSpace(dto.description) ==>
      var t := SupportTicket(old(db.nextId), TicketOwner(user, dto), dto.subject, dto.description, Some(DefaultStatus));
      db.rows == old(db.rows) + [t] && reply == Success(Created, ToDto(t))
    ensures StatusesAllowed(old(db.rows)) ==> StatusesAllowed(db.rows)
  {
    if IsNullOrWhiteSpace(dto.subject) || IsNullOrWhiteSpace(dto.description) {
      return Failure(BadRequest, MsgRequired);
    }
    var ticket := SupportTicket(0, TicketOwner(user, dto), dto.subject, dto.description, Some(DefaultStatus));
    var id := db.Insert(ticket);
    reply := Success(Created, ToDto(ticket.(ticketId := id)));
  }

  // ---------------------------------------------------------------- queries

  /** The tickets `keep` selects, highest `TicketID` first, as DTOs. */
  function Listing(rows: seq<SupportTicket>, keep: SupportTicket -> bool): (r: seq<SupportTicketDto>)
    ensures forall i, j :: 0 <= i < j < |r| ==> r[i].ticketId >= r[j].ticketId
    ensures forall d :: d in r ==> exists t :: t in rows && keep(t) && d == ToDto(t)
    ensures forall t :: t in rows && keep(t) ==> ToDto(t) in r
  {
    var kept := Filter(rows, keep);
    var sorted := SortDesc(kept, TicketKey);
    SortDescMembers(kept, TicketKey);
    MapMembers(sorted, ToDto);
    Map(sorted, ToDto)
  }

  /** `GET /api/supporttickets/{id}`. */
  function GetById(rows: seq<SupportTicket>, id: int): (r: Reply<SupportTicketDto>)
    ensures r.Success? <==> exists i :: 0 <= i < |rows| && rows[i].ticketId == id
    ensures r.Success? ==> r.status == Ok && r.body.ticketId == id
    ensures r.Failure? ==> r == Failure(NotFound, ProblemText(NotFound))
    ensures r.Success? ==> exists i :: 0 <= i < |rows| && rows[i].ticketId == id && r.body == ToDto(rows[i])
    ensures UniqueKeys(rows, TicketKey) ==>
      forall i :: 0 <= i < |rows| && rows[i].ticketId == id ==> r == Success(Ok, ToDto(rows[i]))
  {
    match IndexOfKey(rows, TicketKey, id)
    case Some(i) => Success(Ok, ToDto(rows[i]))
    case None => Failure(NotFound, ProblemText(NotFound))
  }

  /** `GET /api/supporttickets?take=n`: the `n` newest tickets, newest first. */
  function GetAll(rows: seq<SupportTicket>, take: int): (r: seq<SupportTicketDto>)
    ensures |r| == if take <= 0 then 0 else if take < |rows| then take else |rows|
    ensures |r| <= |rows| && (take <= 0 ==> r == [])
    ensures take >= 0 ==> |r| <= take
    ensures forall i, j :: 0 <= i < j < |r| ==> r[i].ticketId >= r[j].ticketId
    ensures forall d :: d in r ==> exists t :: t in rows && d == ToDto(t)
    ensures take >= |rows| ==> forall t :: t in rows ==> ToDto(t) in r
  {
    var sorted := SortDesc(rows, TicketKey);
    SortDescMembers(rows, TicketKey);
    var top := Take(sorted, take);
    assert forall t :: t in top ==> t in sorted;
    MapMembers(top, ToDto);
    Map(top, ToDto)
  }

  /** `GetAll` keeps the newest tickets: a ticket left out of the listing is
      no newer than any ticket in it. */
  lemma GetAllKeepsNewest(rows: seq<SupportTicket>, take: int, t: SupportTicket, d: SupportTicketDto)
    requires t in rows && d in GetAll(rows, take) && ToDto(t) !in GetAll(rows, take)
    ensures t.ticketId <= d.ticketId
  {
    var sorted := SortDesc(rows, TicketKey);
    SortDescMembers(rows, TicketKey);
    var top := Take(sorted, take);
    var r := Map(top, ToDto);
    assert r == GetAll(rows, take);
    var p :| 0 <= p < |sorted| && sorted[p] == t;
    var q :| 0 <= q < |r| && r[q] == d;
    assert p >= |top|;
    assert top[q] == sorted[q];
    assert TicketKey(sorted[q]) >= TicketKey(sorted[p]);
  }

  function ByUserAndStatus(userId: int, status: Option<string>): SupportTicket -> bool {
    (t: SupportTicket) => t.userId == Some(userId) && (IsNullOrWhiteSpace(status) || t.status == status)
  }

  /** `GET /api/supporttickets/by-user/{userId}?status=s`: a blank status means no
      filter; an unknown one is refused. */
  function GetByUser(rows: seq<SupportTicket>, userId: int, status: Option<string>): (r: Reply<seq<SupportTicketDto>>)
    ensures r.Failure? <==> !IsNullOrWhiteSpace(status) && !IsAllowed(status.value)
    ensures r.Failure? ==> r == Failure(BadRequest, MsgUnknownStatus)
    ensures r.Success? ==> (r.status == Ok &&
      (forall i, j :: 0 <= i < j < |r.body| ==> r.body[i].ticketId >= r.body[j].ticketId) &&
      (forall d :: d in r.body ==> d.userId == Some(userId)) &&
      (!IsNullOrWhiteSpace(status) ==> forall d :: d in r.body ==> d.status == status.value) &&
      (forall t :: t in rows && t.userId == Some(userId) && (IsNullOrWhiteSpace(status) || t.status == status) ==>
         ToDto(t) in r.body) &&
      (forall d :: d in r.body ==>
         exists t :: (t in rows && t.userId == Some(userId) &&
                      (IsNullOrWhiteSpace(status) || t.status == status) && d == ToDto(t))))
  {
    if !IsNullOrWhiteSpace(status) && !IsAllowed(status.value) then Failure(BadRequest, MsgUnknownStatus)
    else Success(Ok, Listing(rows, ByUserAndStatus(userId, status)))
  }

  /** `GET /api/supporttickets/mine?status=s`: `GetByUser` for the caller's own id. */
  function GetMine(rows: seq<SupportTicket>, user: Principal, status: Option<string>): (r: Reply<seq<SupportTicketDto>>)
    ensures UserIdOf(user).None? ==> r == Failure(Unauthorized, MsgNoUserId)
    ensures UserIdOf(user).Some? ==> r == GetByUser(rows, UserIdOf(user).value, status)
  {
    match UserIdOf(user)
    case None => Failure(Unauthorized, MsgNoUserId)
    case Some(uid) => GetByUser(rows, uid, status)
  }

  // ---------------------------------------------------------------- status

  /** `PATCH /api/supporttickets/{id}/status?value=v`: the ticket is looked up
      first, then the value is checked; only an allowed value is stored. */
  method UpdateStatus(db: TicketTable, id: int, value: Option<string>) returns (reply: Reply<SupportTicketDto>)
    requires db.Valid()
    modifies db
    ensures db.Valid() && db.nextId == old(db.nextId)
    ensures IndexOfKey(old(db.rows), TicketKey, id).None? ==>
      reply == Failure(NotFound, ProblemText(NotFound)) && db.rows == old(db.rows)
    ensures IndexOfKey(old(db.rows), TicketKey, id).Some? && IsNullOrWhiteSpace(value) ==>
      reply == Failure(BadRequest, MsgStatusRequired) && db.rows == old(db.rows)
    ensures IndexOfKey(old(db.rows), TicketKey, id).Some? && !IsNullOrWhiteSpace(value) && !IsAllowed(value.value) ==>
      reply == Failure(BadRequest, MsgAllowedStatuses) && db.rows == old(db.rows)
    ensures IndexOfKey(old(db.rows), TicketKey, id).Some? && !IsNullOrWhiteSpace(value) && IsAllowed(value.value) ==>
      var i := IndexOfKey(old(db.rows), TicketKey, id).value;
      db.rows == old(db.rows)[i := old(db.rows)[i].(status := value)] &&
      reply == Success(Ok, ToDto(db.rows[i])) && reply.body.status == value.value
    ensures StatusesAllowed(old(db.rows)) ==> StatusesAllowed(db.rows)
  {
    var found := IndexOfKey(db.rows, TicketKey, id);
    if found.None? {
      return Failure(NotFound, ProblemText(NotFound));
    }
    if IsNullOrWhiteSpace(value) {
      return Failure(BadRequest, MsgStatusRequired);
    }
    if !IsAllowed(value.value) {
      return Failure(BadRequest, MsgAllowedStatuses);
    }
    var i := found.value;
    var ticket := db.rows[i].(status := value);
    db.Put(i, ticket);
    reply := Success(Ok, ToDto(ticket));
  }
}
