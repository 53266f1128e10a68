/** The server half of following the log: one page at a time above a cursor, drained
    until a page is not full, and the choice between replay and snapshot on connect. */
module Stream {
  import opened Wrappers
  import opened ChangeLog

  const STREAM_REPLAY_PAGE: nat := 500

  /** Where a cursor stands after a page was written. */
  function Reached(page: seq<Change>, cursor: int): int {
    if page == [] then cursor else page[|page| - 1].seqNo
  }

  /** The position a client names. Both texts arrive trimmed; `parse` is the base-10
      64-bit integer reader. */
  function StreamCursor(lastEventID: string, fromParam: string, parse: string -> Option<int>): Option<int> {
    if lastEventID != "" && parse(lastEventID).Some? then parse(lastEventID)
    else if fromParam == "" then None
    else parse(fromParam)
  }

  predicate Readable(text: string, parse: string -> Option<int>) {
    text != "" && parse(text).Some?
  }

  /** A reconnect is placed by the last event delivered, whatever the page's URL still says.
      The URL decides exactly when there is no readable last event id; `some` is any URL
      parameter that can be read. */
  lemma UrlDecidesIff(lastEventID: string, some: string, parse: string -> Option<int>)
    requires Readable(some, parse)
    ensures Readable(lastEventID, parse) <==> forall url :: StreamCursor(lastEventID, url, parse) == StreamCursor(lastEventID, "", parse)
    ensures Readable(lastEventID, parse) ==> StreamCursor(lastEventID, some, parse) == parse(lastEventID)
    ensures !Readable(lastEventID, parse) ==>
      StreamCursor(lastEventID, some, parse) == parse(some) && StreamCursor(lastEventID, "", parse) == None
  {
    if !Readable(lastEventID, parse) {
      assert StreamCursor(lastEventID, some, parse) != StreamCursor(lastEventID, "", parse);
    }
  }

  method WriteChangesSince(store: ChangeStore, cursor: int)
    returns (next: int, full: bool, written: seq<Change>)
    ensures written == Page(store.Contents(), cursor, STREAM_REPLAY_PAGE)
    ensures next == if written == [] then cursor else written[|written| - 1].seqNo
    ensures |written| <= 500 && (full <==> |written| == 500)
    ensures forall c :: c in written ==> c in store.rows && c.seqNo > cursor
    ensures !full ==> forall c :: c in store.rows && c.seqNo > cursor ==> c in written
  {
    var changes := store.ListChangesSince(cursor, STREAM_REPLAY_PAGE);
    PageMeans(store.Contents(), cursor, STREAM_REPLAY_PAGE);
    next, written := cursor, [];
    for i := 0 to |changes|
      invariant written == changes[..i] && next == Reached(written, cursor)
    {
      written := written + [changes[i]];
      next := changes[i].seqNo;
    }
    full := |changes| == STREAM_REPLAY_PAGE;
  }

  /** The stream loop between two waits, over a log nobody is appending to. */
  method DrainToWait(store: ChangeStore, from: int) returns (cursor: int, written: seq<Change>)
    requires store.Valid()
    requires store.watermark - |store.rows| <= from <= store.watermark
    ensures cursor == store.watermark
    ensures |written| == store.watermark - from
    ensures forall i :: 0 <= i < |written| ==> written[i].seqNo == from + 1 + i && written[i] in store.rows
  {
    ghost var log := store.Contents();
    cursor, written := from, [];
    while true
      invariant from <= cursor <= log.watermark
      invariant |written| == cursor - from
      invariant forall i :: 0 <= i < |written| ==> written[i].seqNo == from + 1 + i && written[i] in log.rows
      decreases log.watermark - cursor
    {
      PageIsNextRun(log, cursor, STREAM_REPLAY_PAGE);
      var next, full, page := WriteChangesSince(store, cursor);
      written := written + page;
      cursor := next;
      if !full {
        return;
      }
    }
  }
}
