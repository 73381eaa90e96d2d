/**
 * Activating and deactivating a user account.  The server view
 * `toggle_user_status` flips `is_active` of one user, refusing the
 * requester's own account and unknown ids; the button handler of the
 * dashboard posts to it and, on success, patches the row's status badge
 * and button as a pair, and otherwise shows an alert.  The user table is
 * an abstract map from id to `is_active`; fetch and its promises become
 * the reply value the handler receives.
 */
module StatusToggle {
  import opened Wrappers

  // ---------------------------------------------------------------- server

  /** The JSON body of a reply: `status`, and `is_active` or `message`. */
  datatype Body = Body(status: Option<string>, isActive: Option<bool>, message: Option<string>)

  /** A `JsonResponse`: its HTTP status code and body. */
  datatype ServerResponse = ServerResponse(code: int, body: Body)

  const SelfMessage := "자신의 상태는 변경할 수 없습니다."
  const MissingMessage := "사용자를 찾을 수 없습니다."

  /** What `toggle_user_status` does to the accounts, and what it answers. */
  function ToggleOutcome(accounts: map<int, bool>, requester: int, userId: int): (r: (map<int, bool>, ServerResponse))
    ensures requester == userId ==>
              r.0 == accounts && r.1 == ServerResponse(403, Body(Some("error"), None, Some(SelfMessage)))
    ensures requester != userId && userId !in accounts ==>
              r.0 == accounts && r.1 == ServerResponse(404, Body(Some("error"), None, Some(MissingMessage)))
    ensures requester != userId && userId in accounts ==>
              && r.0.Keys == accounts.Keys
              && r.0[userId] == !accounts[userId]
              && (forall id :: id in accounts && id != userId ==> r.0[id] == accounts[id])
              && r.1 == ServerResponse(200, Body(Some("success"), Some(r.0[userId]), None))
  {
    if requester == userId then (accounts, ServerResponse(403, Body(Some("error"), None, Some(SelfMessage))))
    else if userId !in accounts then (accounts, ServerResponse(404, Body(Some("error"), None, Some(MissingMessage))))
    else
      var flipped := accounts[userId := !accounts[userId]];
      (flipped, ServerResponse(200, Body(Some("success"), Some(flipped[userId]), None)))
  }

  /** Toggling the same other user twice restores every account. */
  lemma ToggleTwiceRestores(accounts: map<int, bool>, requester: int, userId: int)
    ensures var once := ToggleOutcome(accounts, requester, userId).0;
            ToggleOutcome(once, requester, userId).0 == accounts
  {
    var once := ToggleOutcome(accounts, requester, userId).0;
    if requester != userId && userId in accounts {
      var twice := ToggleOutcome(once, requester, userId).0;
      assert twice.Keys == accounts.Keys;
      assert forall id :: id in accounts ==> twice[id] == accounts[id];
    }
  }

  /** Only a success changes anything, and it changes exactly one account. */
  lemma ToggleChangesAtMostOne(accounts: map<int, bool>, requester: int, userId: int)
    ensures var (after, resp) := ToggleOutcome(accounts, requester, userId);
            && after.Keys == accounts.Keys
            && (resp.code == 200 <==> after != accounts)
            && (forall id :: id in accounts && after[id] != accounts[id] ==> id == userId)
  {
    var (after, resp) := ToggleOutcome(accounts, requester, userId);
    if requester != userId && userId in accounts {
      assert after[userId] != accounts[userId];
    }
  }

  class UserAccounts {
    /** `is_active` of every user, by id. */
    var isActive: map<int, bool>

    constructor (accounts: map<int, bool>)
      ensures isActive == accounts
    {
      isActive := accounts;
    }

    /** `toggle_user_status(request, user_id)` with `requester` the id of `request.user`. */
    method ToggleUserStatus(requester: int, userId: int) returns (response: ServerResponse)
      modifies this
      ensures (isActive, response) == ToggleOutcome(old(isActive), requester, userId)
    {
      if requester == userId {
        return ServerResponse(403, Body(Some("error"), None, Some(SelfMessage)));
      }
      if userId !in isActive {
        return ServerResponse(404, Body(Some("error"), None, Some(MissingMessage)));
      }
      isActive := isActive[userId := !isActive[userId]];
      response := ServerResponse(200, Body(Some("success"), Some(isActive[userId]), None));
    }
  }

  // ---------------------------------------------------------------- client

  /** The body of a reply as `response.json()` delivers it, or the parse error. */
  datatype Payload = Json(body: Body) | Unparsable(error: string)

  /** What the fetch promise settles to: a network failure, or a reply. */
  datatype Reply = NetworkError(reason: string) | Response(ok: bool, payload: Payload)

  /** The status badge and the toggle button of a row. */
  datatype StatusView = StatusView(spanClass: string, spanText: string, buttonClass: string, buttonText: string)

  /** What the handler does: patch the row for an activity state, or alert. */
  datatype Effect = Patch(active: bool) | Alert(text: string)

  const ActiveView := StatusView("status-span status-active", "활성", "btn-toggle-status btn-deactivate", "비활성화")
  const InactiveView := StatusView("status-span status-inactive", "비활성", "btn-toggle-status btn-activate", "활성화")
  const ServerErrorFallback := "서버 오류가 발생했습니다."
  const RequestFailedPrefix := "요청 처리 중 오류가 발생했습니다: "
  const ErrorPrefix := "오류: "

  /** The badge and button for an activity state. */
  function ViewFor(active: bool): (v: StatusView)
    ensures v == ActiveView <==> active
    ensures v == InactiveView <==> !active
  {
    if active then ActiveView else InactiveView
  }

  /** Badge and button agree: the badge says active exactly when the button offers to deactivate. */
  predicate Agrees(v: StatusView) {
    (v.spanClass == "status-span status-active") <==> (v.buttonClass == "btn-toggle-status btn-deactivate")
  }

  /** The activity state a patched row shows, read back from the badge. */
  function ShownState(v: StatusView): (r: Option<bool>)
    ensures r.Some? ==> v == ViewFor(r.value)
  {
    if v == ActiveView then Some(true) else if v == InactiveView then Some(false) else None
  }

  /** Every patch leaves an agreeing pair, and the state can be read back from it. */
  lemma ViewForAgreesAndReadsBack(active: bool)
    ensures Agrees(ViewFor(active))
    ensures ShownState(ViewFor(active)) == Some(active)
  {
  }

  /** A JavaScript value is falsy when missing or empty. */
  function MessageOr(message: Option<string>, fallback: string): (r: string)
    ensures message.Some? && message.value != "" ==> r == message.value
    ensures message.None? || message.value == "" ==> r == fallback
  {
    if message.Some? && message.value != "" then message.value else fallback
  }

  /** `String(data.message)`: a missing message prints as `undefined`. */
  function Shown(message: Option<string>): string {
    match message
    case Some(m) => m
    case None => "undefined"
  }

  /** The handler's decision on a settled request. */
  function ReplyEffect(reply: Reply): (e: Effect)
    ensures e.Patch? <==> reply.Response? && reply.ok && reply.payload.Json? && reply.payload.body.status == Some("success")
    ensures e.Patch? ==> (e.active <==> reply.payload.body.isActive == Some(true))
    ensures reply.Response? && !reply.ok && reply.payload.Json? ==>
              e == Alert(RequestFailedPrefix + MessageOr(reply.payload.body.message, ServerErrorFallback))
    ensures reply.Response? && reply.ok && reply.payload.Json? && reply.payload.body.status != Some("success") ==>
              e == Alert(ErrorPrefix + Shown(reply.payload.body.message))
  {
    match reply
    case NetworkError(reason) => Alert(RequestFailedPrefix + reason)
    case Response(ok, payload) =>
      match payload
      case Unparsable(error) => Alert(RequestFailedPrefix + error)
      case Json(body) =>
        if !ok then Alert(RequestFailedPrefix + MessageOr(body.message, ServerErrorFallback))
        else if body.status == Some("success") then Patch(body.isActive == Some(true))
        else Alert(ErrorPrefix + Shown(body.message))
  }

  class StatusControls {
    var view: StatusView

    constructor (v: StatusView)
      ensures view == v
    {
      view := v;
    }

    /** The two `then` steps and the `catch` of the button handler; the result is the alert shown, if any. */
    method HandleReply(reply: Reply) returns (alert: Option<string>)
      modifies this
      ensures ReplyEffect(reply).Patch? ==> view == ViewFor(ReplyEffect(reply).active) && alert.None?
      ensures ReplyEffect(reply).Alert? ==> view == old(view) && alert == Some(ReplyEffect(reply).text)
    {
      if reply.NetworkError? {
        return Some(RequestFailedPrefix + reply.reason);
      }
      if reply.payload.Unparsable? {
        return Some(RequestFailedPrefix + reply.payload.error);
      }
      var data := reply.payload.body;
      if !reply.ok {
        var message := if data.message.Some? && data.message.value != "" then data.message.value else ServerErrorFallback;
        return Some(RequestFailedPrefix + message);
      }
      if data.status == Some("success") {
        if data.isActive == Some(true) {
          view := ActiveView;
        } else {
          view := InactiveView;
        }
        alert := None;
      } else {
        alert := Some(ErrorPrefix + Shown(data.message));
      }
    }
  }

  /** The reply the browser receives for a server response: `ok` is a 2xx status. */
  function Delivered(resp: ServerResponse): (r: Reply)
    ensures r.Response? && r.payload == Json(resp.body)
    ensures r.ok <==> 200 <= resp.code < 300
  {
    Response(200 <= resp.code < 300, Json(resp.body))
  }

  /**
   * End to end: after a successful toggle the row shows the state the
   * server now holds; a refused toggle is reported with the server's
   * message and patches nothing.
   */
  lemma ClientShowsServerState(accounts: map<int, bool>, requester: int, userId: int)
    ensures var (after, resp) := ToggleOutcome(accounts, requester, userId);
            requester != userId && userId in accounts ==> ReplyEffect(Delivered(resp)) == Patch(after[userId])
    ensures requester == userId ==>
              ReplyEffect(Delivered(ToggleOutcome(accounts, requester, userId).1)) == Alert(RequestFailedPrefix + SelfMessage)
    ensures requester != userId && userId !in accounts ==>
              ReplyEffect(Delivered(ToggleOutcome(accounts, requester, userId).1)) == Alert(RequestFailedPrefix + MissingMessage)
  {
  }
}
