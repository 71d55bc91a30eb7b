/** "My requests": the signed-in user's support tickets, optionally filtered by
    status on the server, shown as a table of escaped text and status badges. */
module SupportTicketsPage {
  import opened Wrappers
  import opened Text
  import opened Js
  import opened Browser
  import opened Html
  import opened TicketView
  import HttpClient
  import SupportTicketsController
  import Identity
  import Persistence

  type TicketDto = SupportTicketsController.SupportTicketDto

  const MinePath: string := "/api/supporttickets/mine"
  const MsgSignIn: string := "Morate biti prijavljeni da biste vidjeli svoje zahtjeve."

  /** One table row: the id, the escaped subject and description, the badge. */
  datatype Row = Row(ticketId: int, subject: string, description: string, badge: Badge)

  datatype Table = Empty(message: string) | Rows(rows: seq<Row>)

  /** `renderTable`: "Nema zahtjeva." for no tickets, otherwise one row per
      ticket, in order, whose text reads back as the ticket's. */
  function RenderTable(tickets: seq<TicketDto>): (t: Table)
    ensures tickets == [] <==> t == Empty(NoTickets)
    ensures t.Rows? ==> |t.rows| == |tickets|
    ensures t.Rows? ==> forall i :: 0 <= i < |tickets| ==>
      t.rows[i].ticketId == tickets[i].ticketId &&
      t.rows[i].badge == BadgeOf(tickets[i].status) &&
      Unescape(t.rows[i].subject, AposShort) == tickets[i].subject &&
      Unescape(t.rows[i].description, AposShort) == tickets[i].description
  {
    if tickets == [] then Empty(NoTickets)
    else
      var rows := seq(|tickets|, i requires 0 <= i < |tickets| =>
        Row(tickets[i].ticketId, EscapeHtml(tickets[i].subject), EscapeHtml(tickets[i].description),
            BadgeOf(tickets[i].status)));
      assert forall i :: 0 <= i < |tickets| ==>
        Unescape(rows[i].subject, AposShort) == tickets[i].subject &&
        Unescape(rows[i].description, AposShort) == tickets[i].description by {
        forall i | 0 <= i < |tickets|
          ensures Unescape(rows[i].subject, AposShort) == tickets[i].subject
          ensures Unescape(rows[i].description, AposShort) == tickets[i].description
        {
          UnescapeEscape(tickets[i].subject, AposShort);
          UnescapeEscape(tickets[i].description, AposShort);
        }
      }
      Rows(rows)
  }

  datatype Screen = SignInRequired(message: string) | Fetching(request: Request)

  /** Opening the page: without a stored token only a message shows and no
      request is made; otherwise the caller's tickets are fetched, with the
      selected status as a query when one is selected. */
  function Open(storage: Storage, filterValue: string): (s: Screen)
    ensures s.SignInRequired? <==> !Truthy(GetItem(storage, "token"))
    ensures s.SignInRequired? ==> s.message == MsgSignIn
    ensures s.Fetching? ==> s.request.path == WithStatus(MinePath, Some(filterValue))
    ensures s.Fetching? ==> s.request.bearer != ""
    ensures s.Fetching? && !IsBlank(storage["token"]) ==> s.request.bearer == Trim(storage["token"])
  {
    var token := GetItem(storage, "token");
    if !Truthy(token) then SignInRequired(MsgSignIn)
    else
      var bearer := HttpClient.EffectiveToken(token, storage);
      Fetching(Request(WithStatus(MinePath, Some(filterValue)), bearer))
  }

  /** What `load` leaves in the page. `None` as a message stands for the
      runtime error of rendering a body that is not a list. */
  datatype View = LoadError(message: Option<string>) | Shown(table: Table)

  function Loaded(outcome: HttpClient.Outcome<seq<TicketDto>>): (v: View)
    ensures outcome.Threw? ==> v == LoadError(Some(MsgLoadError + outcome.message))
    ensures outcome.Returned? && outcome.value.Some? ==> v == Shown(RenderTable(outcome.value.value))
    ensures outcome.Returned? && outcome.value.None? ==> v == LoadError(None)
  {
    match outcome
    case Threw(m) => LoadError(Some(MsgLoadError + m))
    case Returned(None) => LoadError(None)
    case Returned(Some(tickets)) => Shown(RenderTable(tickets))
  }

  /** The server's own answer to this page: when the table holds only allowed
      statuses, every row gets a styled badge and a translated label. */
  lemma {:induction false} ServerTicketsAreStyled(
    rows: seq<Persistence.SupportTicket>, user: Identity.Principal, status: Option<string>)
    requires SupportTicketsController.StatusesAllowed(rows)
    requires SupportTicketsController.GetMine(rows, user, status).Success?
    ensures var body := SupportTicketsController.GetMine(rows, user, status).body;
      var table := RenderTable(body);
      table.Rows? ==> forall i :: 0 <= i < |body| ==>
        table.rows[i].badge.cssClass != PlainBadge && table.rows[i].badge.text != body[i].status
  {
    var uid := Identity.UserIdOf(user).value;
    var body := SupportTicketsController.GetMine(rows, user, status).body;
    assert body == SupportTicketsController.Listing(rows, SupportTicketsController.ByUserAndStatus(uid, status));
    forall i | 0 <= i < |body|
      ensures SupportTicketsController.IsAllowed(body[i].status)
    {
      assert body[i] in body;
      var t :| t in rows && SupportTicketsController.ByUserAndStatus(uid, status)(t) &&
               body[i] == SupportTicketsController.ToDto(t);
      SupportTicketsController.ToDtoStatusAllowed(t);
    }
    forall i | 0 <= i < |body|
      ensures BadgeClass(body[i].status) != PlainBadge && StatusLabel(body[i].status) != body[i].status
    {
      StyledExactlyWhenAllowed(body[i].status);
    }
  }
}
