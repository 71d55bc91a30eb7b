/** The administrators' support page: every ticket or one user's, filtered by
    status, with a per-row control that changes a ticket's status and updates
    its badge in place. */
module SupportAdminPage {
  import opened Wrappers
  import opened Text
  import opened Js
  import opened Browser
  import opened Html
  import opened Queries
  import opened TicketView
  import HttpClient
  import SupportTicketsController
  import Persistence

  type TicketDto = SupportTicketsController.SupportTicketDto

  const TicketsPath: string := "/api/supporttickets"
  const DefaultTake: int := 50

  /** `Math.max(1, Number(input) || 50)`: 0, blank and non-numeric input give
      50, anything below 1 gives 1. */
  function TakeOf(input: string): (take: int)
    ensures take >= 1
    ensures IsBlank(input) ==> take == DefaultTake
    ensures NumberOf(input).NonFinite? || NumberOf(input) == Whole(0) ==> take == DefaultTake
    ensures NumberOf(input).Whole? && NumberOf(input).value >= 1 ==> take == NumberOf(input).value
    ensures NumberOf(input).Whole? && NumberOf(input).value < 0 ==> take == 1
  {
    var n := NumberOf(input);
    var v := if n.Whole? && n.value != 0 then n.value else DefaultTake;
    if v < 1 then 1 else v
  }

  /** `fetchAllTickets(take)`. */
  function AllPath(take: int): string {
    TicketsPath + "?take=" + IntToString(take)
  }

  /** `fetchTicketsByUser(uid, status)`. */
  function ByUserPath(uid: JsNumber, status: Option<string>): (path: string)
    ensures !Truthy(status) ==> path == TicketsPath + "/by-user/" + NumberToString(uid)
    ensures Truthy(status) ==> path == TicketsPath + "/by-user/" + NumberToString(uid) + "?status=" + EncodeUriComponent(status.value)
  {
    WithStatus(TicketsPath + "/by-user/" + NumberToString(uid), status)
  }

  /** What `load` asks the server for, and the status it then filters by itself ("" for none). */
  datatype Plan = Plan(path: string, clientStatus: string)

  /** With a user id the server filters by user and status; without one the
      page fetches the newest tickets and filters by status itself. */
  function PlanOf(statusValue: string, userIdInput: string, takeInput: string): (p: Plan)
    ensures !IsBlank(userIdInput) ==>
      (p.clientStatus == "" && p.path == ByUserPath(NumberOf(Trim(userIdInput)), Some(statusValue)))
    ensures IsBlank(userIdInput) ==> p.clientStatus == statusValue && p.path == AllPath(TakeOf(takeInput))
  {
    var userIdStr := Trim(userIdInput);
    if userIdStr != [] then
      var status := if statusValue != "" then Some(statusValue) else None;
      Plan(ByUserPath(NumberOf(userIdStr), status), "")
    else Plan(AllPath(TakeOf(takeInput)), statusValue)
  }

  function HasStatus(status: string): TicketDto -> bool {
    (t: TicketDto) => t.status == status
  }

  /** `if (status) tickets = tickets.filter(t => t.status === status)`. */
  function ClientFilter(tickets: seq<TicketDto>, status: string): (r: seq<TicketDto>)
    ensures status == "" ==> r == tickets
    ensures status != "" ==> forall t :: t in r <==> t in tickets && t.status == status
    ensures |r| <= |tickets|
    ensures Subsequence(r, tickets)
  {
    SubsequenceOfSelf(tickets);
    if status == "" then tickets else Filter(tickets, HasStatus(status))
  }

  /** Filtering a listing made of two parts filters each part in place. */
  lemma ClientFilterAppend(a: seq<TicketDto>, b: seq<TicketDto>, status: string)
    ensures ClientFilter(a + b, status) == ClientFilter(a, status) + ClientFilter(b, status)
  {
    if status != "" {
      FilterAppend(a, b, HasStatus(status));
    }
  }

  /** Filtering by the status a listing was already filtered by changes nothing. */
  lemma ClientFilterIdempotent(tickets: seq<TicketDto>, status: string)
    ensures ClientFilter(ClientFilter(tickets, status), status) == ClientFilter(tickets, status)
  {
    if status != "" {
      var once := Filter(tickets, HasStatus(status));
      assert forall i :: 0 <= i < |once| ==> HasStatus(status)(once[i]);
    }
  }

  /** A listing from the server, filtered on the client, holds exactly the
      newest tickets whose status (with "Pending" for none) is the one chosen. */
  lemma {:induction false} ClientFilterOfServerListing(rows: seq<Persistence.SupportTicket>, take: int, status: string)
    requires status != "" && take >= |rows|
    ensures forall t :: t in rows && SupportTicketsController.ToDto(t).status == status ==>
      SupportTicketsController.ToDto(t) in ClientFilter(SupportTicketsController.GetAll(rows, take), status)
    ensures forall d :: d in ClientFilter(SupportTicketsController.GetAll(rows, take), status) ==> d.status == status
  {
  }

  /** One row of the table, with the user column `userID ?? '-'`. */
  datatype Row = Row(ticketId: int, user: string, subject: string, description: string, badge: Badge)

  datatype Table = Empty(message: string) | Rows(rows: seq<Row>)

  function UserCell(userId: Option<int>): (cell: string)
    ensures userId.None? ==> cell == "-"
    ensures userId.Some? ==> NumberOf(cell) == Whole(userId.value)
  {
    match userId
    case None => "-"
    case Some(id) =>
      NumberOfIntToString(id);
      IntToString(id)
  }

  /** `renderTable` of this page. */
  function RenderTable(tickets: seq<TicketDto>): (t: Table)
    ensures tickets == [] <==> t == Empty(NoTickets)
    ensures t.Rows? ==> |t.rows| == |tickets|
    ensures t.Rows? ==> forall i :: 0 <= i < |tickets| ==>
      t.rows[i].ticketId == tickets[i].ticketId &&
      t.rows[i].user == UserCell(tickets[i].userId) &&
      t.rows[i].badge == BadgeOf(tickets[i].status) &&
      Unescape(t.rows[i].subject, AposShort) == tickets[i].subject &&
      Unescape(t.rows[i].description, AposShort) == tickets[i].description
  {
    if tickets == [] then Empty(NoTickets)
    else
      var rows := seq(|tickets|, i requires 0 <= i < |tickets| =>
        Row(tickets[i].ticketId, UserCell(tickets[i].userId), EscapeHtml(tickets[i].subject),
            EscapeHtml(tickets[i].description), BadgeOf(tickets[i].status)));
      forall i | 0 <= i < |tickets|
        ensures Unescape(rows[i].subject, AposShort) == tickets[i].subject
        ensures Unescape(rows[i].description, AposShort) == tickets[i].description
      {
        UnescapeEscape(tickets[i].subject, AposShort);
        UnescapeEscape(tickets[i].description, AposShort);
      }
      Rows(rows)
  }

  datatype View = Loading | LoadError(message: Option<string>) | Shown(table: Table)

  /** The page's state: what the ticket area shows and the paths requested so far. */
  class AdminPage {
    var view: View
    var requested: seq<string>

    constructor()
      ensures view == Loading && requested == []
    {
      view := Loading;
      requested := [];
    }

    /** `load`: one request as `PlanOf` says, then the table of its answer
        filtered on the client, or the error. `respond` is the server's answer
        to a path. A body that is not a list is a rendering error whose
        message is not modelled. */
    method Load(statusValue: string, userIdInput: string, takeInput: string,
                respond: string -> HttpClient.Outcome<seq<TicketDto>>)
      modifies this
      ensures var plan := PlanOf(statusValue, userIdInput, takeInput);
        requested == old(requested) + [plan.path] &&
        match respond(plan.path)
        case Threw(m) => view == LoadError(Some(MsgLoadError + m))
        case Returned(None) => view == LoadError(None)
        case Returned(Some(tickets)) => view == Shown(RenderTable(ClientFilter(tickets, plan.clientStatus)))
    {
      view := Loading;
      var plan := PlanOf(statusValue, userIdInput, takeInput);
      requested := requested + [plan.path];
      var outcome := respond(plan.path);
      match outcome
      case Threw(m) =>
        view := LoadError(Some(MsgLoadError + m));
      case Returned(None) =>
        view := LoadError(None);
      case Returned(Some(tickets)) =>
        view := Shown(RenderTable(ClientFilter(tickets, plan.clientStatus)));
    }
  }

  // ---------------------------------------------------------------- status change

  /** The PATCH a save sends: `/api/supporttickets/${ticketId}/status?value=…`. */
  function StatusPath(ticketId: JsNumber, value: string): string {
    TicketsPath + "/" + NumberToString(ticketId) + "/status?value=" + EncodeUriComponent(value)
  }

  /** The id a rendered row carries reaches the server as that ticket's id. */
  lemma {:induction false} RenderedRowPatchesItsTicket(ticketId: int, value: string)
    ensures StatusPath(NumberOf(IntToString(ticketId)), value) ==
      TicketsPath + "/" + IntToString(ticketId) + "/status?value=" + EncodeUriComponent(value)
    ensures IsInt32(ticketId) ==> ParseInt32(Some(IntToString(ticketId))) == Some(ticketId)
  {
    NumberOfIntToString(ticketId);
    if IsInt32(ticketId) {
      ParseInt32OfIntToString(ticketId);
    }
  }

  /** A rendered row: its `data-id` and its status badge, which a save rewrites in place. */
  class TicketRow {
    var dataId: Option<string>
    var badge: Badge

    constructor(t: TicketDto)
      ensures dataId == Some(IntToString(t.ticketId)) && badge == BadgeOf(t.status)
    {
      dataId := Some(IntToString(t.ticketId));
      badge := BadgeOf(t.status);
    }

    /** A click on the row's save button. Without an id or a selected status
        nothing is sent. Otherwise the PATCH goes out with the stored token,
        and only when it succeeds does the badge show the new status, by the
        same rule as a freshly rendered row. */
    method Save(selected: Option<string>, storage: Storage, outcome: HttpClient.Outcome<()>) returns (sent: Option<Request>)
      modifies this
      ensures dataId == old(dataId)
      ensures !Truthy(dataId) || !Truthy(selected) ==> sent.None? && badge == old(badge)
      ensures Truthy(dataId) && Truthy(selected) ==>
        sent == Some(Request(StatusPath(NumberOf(dataId.value), selected.value),
                             HttpClient.EffectiveToken(GetItem(storage, "token"), storage)))
      ensures Truthy(dataId) && Truthy(selected) && outcome.Returned? ==> badge == BadgeOf(selected.value)
      ensures outcome.Threw? ==> badge == old(badge)
    {
      if !Truthy(dataId) {
        return None;
      }
      var ticketId := NumberOf(dataId.value);
      if !Truthy(selected) {
        return None;
      }
      var newStatus := selected.value;
      var token := GetItem(storage, "token");
      var authToken := if Truthy(token) then token else None;
      sent := Some(Request(StatusPath(ticketId, newStatus), HttpClient.EffectiveToken(authToken, storage)));
      if outcome.Returned? {
        badge := BadgeOf(newStatus);
      }
    }
  }
}
