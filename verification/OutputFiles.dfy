/** The files the bid processor appends to, as the operating system keeps them: contents by
    name, and open handles. */
module OutputFiles {
  import opened Bids
  import opened GoArith

  datatype Line = Header | BidLine(bid: CommonBid)

  datatype Kind = All | Top

  /** The name of an output file: its kind and the start of its hour bucket. */
  datatype FileName = FileName(kind: Kind, bucket: int)

  type Contents = map<FileName, seq<Line>>

  const BUCKET_SECONDS := 60 * 60

  function BucketOf(bid: CommonBid): int {
    Quot(Quot(bid.receivedAtMs, 1000), BUCKET_SECONDS) * BUCKET_SECONDS
  }

  /** The bucket contains the receive time. */
  lemma BucketContainsReceiveTime(bid: CommonBid)
    requires bid.receivedAtMs >= 0
    ensures BucketOf(bid) % BUCKET_SECONDS == 0
    ensures BucketOf(bid) * 1000 <= bid.receivedAtMs < (BucketOf(bid) + BUCKET_SECONDS) * 1000
  {
  }

  /** A file is empty, or one header followed by bid lines. */
  ghost predicate WellFormed(lines: seq<Line>) {
    lines != [] ==> lines[0] == Header && forall k | 1 <= k < |lines| :: lines[k].BidLine?
  }

  function BidsIn(lines: seq<Line>): seq<CommonBid> {
    if lines == [] then []
    else BidsIn(lines[..|lines| - 1]) + if lines[|lines| - 1].BidLine? then [lines[|lines| - 1].bid] else []
  }

  lemma BidsInAppend(lines: seq<Line>, line: Line)
    ensures BidsIn(lines + [line]) == BidsIn(lines) + if line.BidLine? then [line.bid] else []
  {
    assert (lines + [line])[..|lines|] == lines;
  }

  function BidsOf(contents: Contents, name: FileName): seq<CommonBid> {
    if name in contents then BidsIn(contents[name]) else []
  }

  class FileSystem {
    var contents: Contents
    var handles: map<nat, FileName>
    var nextHandle: nat

    ghost predicate Valid()
      reads this
    {
      && (forall fd | fd in handles :: fd < nextHandle && handles[fd] in contents)
      && (forall name | name in contents :: WellFormed(contents[name]))
    }

    /** O_APPEND|O_CREATE: an existing file keeps its contents. */
    method OpenForAppend(name: FileName) returns (fd: nat)
      requires Valid()
      modifies this
      ensures Valid()
      ensures fd !in old(handles) && handles == old(handles)[fd := name]
      ensures contents == if name in old(contents) then old(contents) else old(contents)[name := []]
    {
      fd := nextHandle;
      nextHandle := nextHandle + 1;
      handles := handles[fd := name];
      if name !in contents {
        contents := contents[name := []];
      }
    }

    method Size(fd: nat) returns (n: nat)
      requires Valid() && fd in handles
      ensures n == |contents[handles[fd]]|
    {
      n := |contents[handles[fd]]|;
    }

    /** Writing needs an open handle. */
    method Write(fd: nat, line: Line)
      requires Valid() && fd in handles
      requires WellFormed(contents[handles[fd]] + [line])
      modifies this`contents
      ensures Valid()
      ensures contents == old(contents)[handles[fd] := old(contents)[handles[fd]] + [line]]
    {
      contents := contents[handles[fd] := contents[handles[fd]] + [line]];
    }

    method Close(fd: nat)
      requires Valid() && fd in handles
      modifies this`handles
      ensures Valid()
      ensures handles == old(handles) - {fd}
    {
      handles := handles - {fd};
    }
  }
}
