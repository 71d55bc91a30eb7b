/** What the two support pages share: the localized label and badge class of a
    status, and the optional `?status=` query of a listing request. */
module TicketView {
  import opened Wrappers
  import opened Js
  import SupportTicketsController

  /** `STATUS_LABELS[s] || s`. */
  function StatusLabel(status: string): (caption: string)
    ensures status == "Pending" ==> caption == "Na čekanju"
    ensures status == "InProgress" ==> caption == "U obradi"
    ensures status == "Completed" ==> caption == "Završeno"
    ensures !SupportTicketsController.IsAllowed(status) ==> caption == status
  {
    if status == "Pending" then "Na čekanju"
    else if status == "InProgress" then "U obradi"
    else if status == "Completed" then "Završeno"
    else status
  }

  const PlainBadge: string := "badge"

  /** `STATUS_CLASS[s] || 'badge'`. */
  function BadgeClass(status: string): (cls: string)
    ensures status == "Pending" ==> cls == "badge badge-pending"
    ensures status == "InProgress" ==> cls == "badge badge-progress"
    ensures status == "Completed" ==> cls == "badge badge-done"
    ensures !SupportTicketsController.IsAllowed(status) ==> cls == PlainBadge
  {
    if status == "Pending" then "badge badge-pending"
    else if status == "InProgress" then "badge badge-progress"
    else if status == "Completed" then "badge badge-done"
    else PlainBadge
  }

  /** Exactly the statuses the server accepts get a styled badge and a
      translated label. */
  lemma StyledExactlyWhenAllowed(status: string)
    ensures BadgeClass(status) != PlainBadge <==> SupportTicketsController.IsAllowed(status)
    ensures StatusLabel(status) != status <==> SupportTicketsController.IsAllowed(status)
  {
    assert SupportTicketsController.IsAllowed(status) <==>
      status == "Pending" || status == "InProgress" || status == "Completed";
  }

  /** `status ? `${path}?status=${encodeURIComponent(status)}` : path`. */
  function WithStatus(path: string, status: Option<string>): (url: string)
    ensures !Truthy(status) ==> url == path
    ensures Truthy(status) ==> url == path + "?status=" + EncodeUriComponent(status.value)
  {
    if Truthy(status) then path + "?status=" + EncodeUriComponent(status.value) else path
  }

  /** The status travels as one query value: whatever it holds, nothing after
      `?status=` can start another parameter or a fragment. */
  lemma StatusIsOneValue(path: string, status: string)
    requires status != ""
    ensures var url := WithStatus(path, Some(status));
      var value := url[|path| + |"?status="|..];
      '&' !in value && '#' !in value && '?' !in value
  {
    EncodedComponentIsOneValue(status);
    assert WithStatus(path, Some(status))[|path| + |"?status="|..] == EncodeUriComponent(status);
  }

  /** The status cell of a row: the badge's class and text. */
  datatype Badge = Badge(cssClass: string, text: string)

  function BadgeOf(status: string): Badge {
    Badge(BadgeClass(status), StatusLabel(status))
  }

  const NoTickets: string := "Nema zahtjeva."
  const MsgLoadError: string := "Greška pri učitavanju: "

  /** A request as the pages send it: its path and the bearer token it
      carries ("" for none). */
  datatype Request = Request(path: string, bearer: string)
}
