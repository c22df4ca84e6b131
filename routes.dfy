/**
  internal/server/routes.go: the CORS wrapper around every route and the
  daily-video handler with its two process-wide variables.

  A request to the daily-video route is modelled sequentially: the current
  UTC date (already formatted as YYYY-MM-DD) and the raw `offset` query
  value ("" when the parameter is absent or empty) are inputs, the videos
  table is read, and the handler's outcome is a `Response` value rather
  than bytes on the wire.
 */
module Routes {
  import opened Wrappers
  import opened Models
  import opened Strconv
  import opened Database

  // ---------------------------------------------------------------------
  // CORS

  /** The four headers the wrapper sets on every response. */
  const CorsHeaders: map<string, string> := map[
    "Access-Control-Allow-Origin" := "*",
    "Access-Control-Allow-Methods" := "GET, POST, OPTIONS",
    "Access-Control-Allow-Headers" := "Accept, Authorization, Content-Type, X-CSRF-Token",
    "Access-Control-Allow-Credentials" := "false"]

  /** What the wrapper does with a request: answer it itself, or pass it on. */
  datatype Dispatch =
    | Preflight(status: int, headers: map<string, string>)
    | Forward(headers: map<string, string>)

  /**
    `corsMiddleware`: the headers are set first; an OPTIONS request is then
    answered 204 No Content and never reaches the wrapped handler.
   */
  function Cors(verb: string): (d: Dispatch)
    ensures d.headers == CorsHeaders
    ensures d.Preflight? <==> verb == "OPTIONS"
    ensures d.Preflight? ==> d.status == 204
  {
    if verb == "OPTIONS" then Preflight(204, CorsHeaders) else Forward(CorsHeaders)
  }

  // ---------------------------------------------------------------------
  // The daily video

  const FetchVideoFailed := "Failed to fetch video"
  const FetchLastVideoFailed := "Failed to fetch last video"

  /** What the handler writes. */
  datatype Response =
    | Video(video: Snippet)            // 200, the record as JSON
    | Exceeded                         // 200, {"exceeded": "No more videos available"}
    | BadRequest                       // 400, "Invalid offset parameter"
    | InternalError(message: string)   // 500
    | EmptyOk                          // 200 with an empty body: a failed lookup no branch handled

  function Status(r: Response): int {
    match r
    case Video(_) => 200
    case Exceeded => 200
    case BadRequest => 400
    case InternalError(_) => 500
    case EmptyOk => 200
  }

  /** The two package-level variables `dailyVideoIndex` and `lastUpdatedDate`. */
  datatype PickerState = PickerState(index: int, lastDate: string)

  /** Their values when the process starts. */
  const Initial := PickerState(0, "")

  datatype Outcome = Outcome(state: PickerState, response: Response)

  /** `time.DateOnly` output: four digits, a dash, two digits, a dash, two digits. */
  predicate IsDateOnly(d: string) {
    && |d| == 10 && d[4] == '-' && d[7] == '-'
    && IsDigit(d[0]) && IsDigit(d[1]) && IsDigit(d[2]) && IsDigit(d[3])
    && IsDigit(d[5]) && IsDigit(d[6]) && IsDigit(d[8]) && IsDigit(d[9])
  }

  /**
    The once-per-date rotation: on a date other than the stored one the
    index moves on by one (Go `int` arithmetic) and the date is stored.
   */
  function Advance(st: PickerState, currentDate: string): (r: PickerState)
    ensures r.lastDate == currentDate
    ensures currentDate != st.lastDate ==> r.index == Wrap64(st.index + 1)
    ensures currentDate == st.lastDate ==> r == st
  {
    if currentDate != st.lastDate then PickerState(Wrap64(st.index + 1), currentDate) else st
  }

  /**
    The id the handler looks up first: the index itself when `offset` is
    absent or empty, the index plus the parsed offset (Go `int` arithmetic)
    when it parses, and None when it does not (the request is rejected).
   */
  function RequestedId(index: int, offsetParam: string): (r: Option<int>)
    ensures offsetParam == "" ==> r == Some(index)
    ensures offsetParam != "" && Atoi(offsetParam).Some? ==> r == Some(Wrap64(index + Atoi(offsetParam).value))
    ensures offsetParam != "" && Atoi(offsetParam).None? ==> r.None?
  {
    if offsetParam == "" then Some(index)
    else match Atoi(offsetParam)
      case Some(offset) => Some(Wrap64(index + offset))
      case None => None
  }

  /**
    What happens after the first lookup failed: reset a drifted index to 1
    (the offset is then ignored), report "exceeded" past the end, wrap a
    non-positive id once from the end, and otherwise fall through with
    nothing to write.
   */
  function Recover(adv: PickerState, videoId: int, rows: Rows): (r: Outcome)
    ensures adv.index > |rows| ==> r.state == adv.(index := 1)
    ensures adv.index <= |rows| ==> r.state == adv
    ensures r.response.Exceeded? <==> adv.index <= |rows| < videoId
    ensures r.response.EmptyOk? <==> adv.index <= |rows| && 1 <= videoId <= |rows|
    ensures r.response.Video? ==> GetVideoById(rows, r.response.video.id) == Some(r.response.video)
    ensures r.response.Video? && adv.index > |rows| ==> r.response.video.id == 1
    ensures r.response.Video? && adv.index <= |rows| ==> r.response.video.id == |rows| + videoId
    ensures adv.index > |rows| ==> (r.response.Video? <==> 1 in rows)
    ensures adv.index <= |rows| && videoId <= 0 ==> (r.response.Video? <==> |rows| + videoId in rows)
    ensures r.response.InternalError? ==> (r.response.message == FetchVideoFailed <==> adv.index > |rows|)
    ensures r.response.InternalError? && adv.index <= |rows| ==> r.response.message == FetchLastVideoFailed
    ensures !r.response.BadRequest?
  {
    var total := GetTotalVideos(rows);
    if adv.index > total then
      var reset := adv.(index := 1);
      match GetVideoById(rows, 1)
      case Some(v) => Outcome(reset, Video(v))
      case None => Outcome(reset, InternalError(FetchVideoFailed))
    else if videoId > total then
      Outcome(adv, Exceeded)
    else if videoId <= 0 then
      match GetVideoById(rows, total + videoId)
      case Some(v) => Outcome(adv, Video(v))
      case None => Outcome(adv, InternalError(FetchLastVideoFailed))
    else
      Outcome(adv, EmptyOk)
  }

  /**
    One request to the daily-video route: the new values of the two
    variables and the response. The contract below gives the facts that
    hold on every path; the lemmas `MalformedOffset`, `Hit`, `ResetPastEnd`,
    `ExceededPastEnd`, `WrapFromEnd` and `GapIsEmptyOk` give each branch's
    outcome in full.
   */
  function Step(st: PickerState, currentDate: string, offsetParam: string, rows: Rows): (r: Outcome)
    ensures IsInt64(st.index) ==> IsInt64(r.state.index)
    ensures r.state.lastDate == currentDate
    ensures r.state.index == Advance(st, currentDate).index || r.state.index == 1
    ensures r.response.Video? ==> GetVideoById(rows, r.response.video.id) == Some(r.response.video)
    ensures r.response.BadRequest? <==> offsetParam != "" && Atoi(offsetParam).None?
  {
    var adv := Advance(st, currentDate);
    match RequestedId(adv.index, offsetParam)
    case None => Outcome(adv, BadRequest)
    case Some(videoId) =>
      match GetVideoById(rows, videoId)
      case Some(v) => Outcome(adv, Video(v))
      case None => Recover(adv, videoId, rows)
  }

  /** The handler: the two package-level variables as fields, updated in place. */
  class DailyPicker {
    var index: int
    var lastDate: string

    ghost predicate Valid()
      reads this
    {
      IsInt64(index)
    }

    function State(): PickerState
      reads this
    {
      PickerState(index, lastDate)
    }

    /** The variables' initial values: index 0 and an empty date. */
    constructor ()
      ensures Valid() && State() == Initial
    {
      index := 0;
      lastDate := "";
    }

    /** `getDailyVideoHandler`, one request. */
    method Resolve(currentDate: string, offsetParam: string, table: VideoTable) returns (resp: Response)
      requires Valid()
      modifies this
      ensures Valid()
      ensures Outcome(State(), resp) == Step(old(State()), currentDate, offsetParam, table.rows)
    {
      if currentDate != lastDate {
        lastDate := currentDate;
        index := Wrap64(index + 1);
      }
      ghost var adv := State();
      assert adv == Advance(old(State()), currentDate);
      var videoId := index;
      if offsetParam != "" {
        match Atoi(offsetParam)
        case Some(offset) =>
          videoId := Wrap64(videoId + offset);
        case None =>
          return BadRequest;
      }
      assert RequestedId(adv.index, offsetParam) == Some(videoId);
      var video := GetVideoById(table.rows, videoId);
      if video.None? {
        assert Step(old(State()), currentDate, offsetParam, table.rows) == Recover(adv, videoId, table.rows);
        var total := GetTotalVideos(table.rows);
        if index > total {
          index := 1;
          video := GetVideoById(table.rows, index);
          if video.None? {
            return InternalError(FetchVideoFailed);
          }
        } else if videoId > total {
          return Exceeded;
        } else if videoId <= 0 {
          video := GetVideoById(table.rows, total + videoId);
          if video.None? {
            return InternalError(FetchLastVideoFailed);
          }
        }
      }
      resp := if video.Some? then Video(video.value) else EmptyOk;
    }
  }

  // ---------------------------------------------------------------------
  // Properties of the daily picker

  /** The first request after start-up moves the index from 0 to 1. */
  lemma FirstRequestAdvances(currentDate: string)
    requires IsDateOnly(currentDate)
    ensures Advance(Initial, currentDate).index == 1
  {
  }

  /**
    Within one date the index moves at most once: a second request on the
    date just stored does not advance it again.
   */
  lemma SameDateDoesNotAdvance(st: PickerState, currentDate: string, offsetParam: string, rows: Rows)
    ensures var first := Step(st, currentDate, offsetParam, rows).state;
      Advance(first, currentDate) == first
  {
  }

  /** A day's requests: each one runs on the state the previous one left. */
  function RunDay(st: PickerState, currentDate: string, offsets: seq<string>, rows: Rows): (r: PickerState)
    decreases |offsets|
    ensures |offsets| > 0 ==> r.lastDate == currentDate
    ensures IsInt64(st.index) ==> IsInt64(r.index)
  {
    if offsets == [] then st
    else RunDay(Step(st, currentDate, offsets[0], rows).state, currentDate, offsets[1..], rows)
  }

  /**
    Whatever the offsets, the index at the end of a day of requests is the
    index after one advance, or 1 (some request reset it); never two
    advances.
   */
  lemma {:induction false} OneAdvancePerDay(st: PickerState, currentDate: string, offsets: seq<string>, rows: Rows)
    requires |offsets| > 0
    ensures var r := RunDay(st, currentDate, offsets, rows);
      r.index == Advance(st, currentDate).index || r.index == 1
    decreases |offsets|
  {
    var next := Step(st, currentDate, offsets[0], rows).state;
    if |offsets| > 1 {
      OneAdvancePerDay(next, currentDate, offsets[1..], rows);
      assert Advance(next, currentDate) == next;
    }
  }

  /** A malformed offset is rejected before the table is read. */
  lemma MalformedOffset(st: PickerState, currentDate: string, offsetParam: string, rows: Rows, other: Rows)
    requires offsetParam != "" && Atoi(offsetParam).None?
    ensures Step(st, currentDate, offsetParam, rows) == Step(st, currentDate, offsetParam, other)
    ensures Step(st, currentDate, offsetParam, rows) == Outcome(Advance(st, currentDate), BadRequest)
    ensures Status(Step(st, currentDate, offsetParam, rows).response) == 400
  {
  }

  /** A requested id that has a row is served, and the index is left as advanced. */
  lemma Hit(st: PickerState, currentDate: string, offsetParam: string, rows: Rows, videoId: int)
    requires RequestedId(Advance(st, currentDate).index, offsetParam) == Some(videoId)
    requires videoId in rows
    ensures Step(st, currentDate, offsetParam, rows)
      == Outcome(Advance(st, currentDate), Video(Scan(videoId, rows[videoId])))
  {
  }

  /**
    A miss while the index has run past the number of videos resets the
    index to 1 and serves row 1, whatever the offset was.
   */
  lemma ResetPastEnd(st: PickerState, currentDate: string, offsetParam: string, rows: Rows, videoId: int)
    requires RequestedId(Advance(st, currentDate).index, offsetParam) == Some(videoId)
    requires videoId !in rows
    requires Advance(st, currentDate).index > |rows|
    ensures var r := Step(st, currentDate, offsetParam, rows);
      && r.state == Advance(st, currentDate).(index := 1)
      && (1 in rows ==> r.response == Video(Scan(1, rows[1])))
      && (1 !in rows ==> r.response == InternalError(FetchVideoFailed))
  {
  }

  /** A miss past the last video, with the index still in range, is reported as exceeded. */
  lemma ExceededPastEnd(st: PickerState, currentDate: string, offsetParam: string, rows: Rows, videoId: int)
    requires RequestedId(Advance(st, currentDate).index, offsetParam) == Some(videoId)
    requires videoId !in rows
    requires Advance(st, currentDate).index <= |rows| < videoId
    ensures Step(st, currentDate, offsetParam, rows) == Outcome(Advance(st, currentDate), Exceeded)
    ensures Status(Step(st, currentDate, offsetParam, rows).response) == 200
  {
  }

  /**
    A miss at or below 0, with the index in range, counts back from the
    end once: id 0 is the last video, -1 the one before it.
   */
  lemma WrapFromEnd(st: PickerState, currentDate: string, offsetParam: string, rows: Rows, videoId: int)
    requires RequestedId(Advance(st, currentDate).index, offsetParam) == Some(videoId)
    requires videoId !in rows
    requires Advance(st, currentDate).index <= |rows| && videoId <= 0
    ensures var r := Step(st, currentDate, offsetParam, rows);
      && r.state == Advance(st, currentDate)
      && (|rows| + videoId in rows ==> r.response == Video(Scan(|rows| + videoId, rows[|rows| + videoId])))
      && (|rows| + videoId !in rows ==> r.response == InternalError(FetchLastVideoFailed))
  {
  }

  /**
    A miss on an id between 1 and the number of videos (a gap left by a
    deleted or never-inserted row) writes nothing and keeps status 200.
   */
  lemma GapIsEmptyOk(st: PickerState, currentDate: string, offsetParam: string, rows: Rows, videoId: int)
    requires RequestedId(Advance(st, currentDate).index, offsetParam) == Some(videoId)
    requires videoId !in rows
    requires Advance(st, currentDate).index <= |rows| && 1 <= videoId <= |rows|
    ensures Step(st, currentDate, offsetParam, rows) == Outcome(Advance(st, currentDate), EmptyOk)
    ensures Status(Step(st, currentDate, offsetParam, rows).response) == 200
  {
  }

  /**
    With a dense table (ids 1..n, as AUTOINCREMENT leaves it when nothing
    is deleted) the empty 200 response cannot happen, and a served video
    is one of rows 1..n.
   */
  lemma DenseTable(st: PickerState, currentDate: string, offsetParam: string, store: Store)
    requires WellFormed(store) && Dense(store)
    ensures var r := Step(st, currentDate, offsetParam, store.rows);
      && !r.response.EmptyOk?
      && (r.response.Video? ==> 1 <= r.response.video.id <= |store.rows|)
  {
    DenseCount(store);
  }

  /** Five videos, index 5, offset "1": past the end, so exceeded. */
  lemma ExampleExceeded(store: Store, today: string)
    requires WellFormed(store) && Dense(store) && store.lastId == 5
    ensures Step(PickerState(5, today), today, "1", store.rows) == Outcome(PickerState(5, today), Exceeded)
  {
    DenseCount(store);
    assert Atoi("1") == Some(1);
  }

  /** Five videos, index 1, offset "-1": id 0 wraps to the last video, row 5. */
  lemma ExampleLastVideo(store: Store, today: string)
    requires WellFormed(store) && Dense(store) && store.lastId == 5
    ensures Step(PickerState(1, today), today, "-1", store.rows)
      == Outcome(PickerState(1, today), Video(Scan(5, store.rows[5])))
  {
    DenseCount(store);
    assert Atoi("-1") == Some(-1) by {
      assert AllDigits("-1"[1..]) && DigitsValue("-1"[1..]) == 1 by { assert "-1"[1..] == "1"; }
    }
  }

  /** Five videos, stored index 5 on yesterday's date: the advance to 6 is reset to 1. */
  lemma ExampleReset(store: Store, yesterday: string, today: string)
    requires WellFormed(store) && Dense(store) && store.lastId == 5
    requires yesterday != today
    ensures Step(PickerState(5, yesterday), today, "", store.rows)
      == Outcome(PickerState(1, today), Video(Scan(1, store.rows[1])))
  {
    DenseCount(store);
  }

  /**
    An offset large enough that index + offset passes the largest Go
    `int` wraps to a negative id, so instead of "exceeded" the handler
    looks up a row far below 0 and answers 500.
   */
  lemma OffsetOverflow(st: PickerState, offsetParam: string, rows: Rows)
    requires IsInt64(st.index) && 0 <= st.index <= |rows| < 0x4000_0000_0000_0000
    requires Atoi(offsetParam).Some? && st.index + Atoi(offsetParam).value > MaxInt64
    requires forall id | id in rows :: id >= 1
    ensures Step(st, st.lastDate, offsetParam, rows) == Outcome(st, InternalError(FetchLastVideoFailed))
  {
  }
}
