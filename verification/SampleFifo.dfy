/** The drop-oldest sample queue of internal/media/talkback_audio.go. */
module SampleFifo {
  import opened GoNumbers

  // The newest `max` of a sequence.
  function Newest(s: seq<Int16>, max: nat): (t: seq<Int16>)
    ensures |t| <= max && |t| <= |s| && (|s| <= max ==> t == s)
  {
    if |s| <= max then s else s[|s| - max..]
  }

  lemma SliceTwice(s: seq<Int16>, i: nat, j: nat)
    requires i + j <= |s|
    ensures s[i..][j..] == s[i + j..]
  {
  }

  // Cutting the queue down after every push keeps what one cut at the end would.
  lemma NewestOfNewest(s: seq<Int16>, more: seq<Int16>, max: nat)
    ensures Newest(Newest(s, max) + more, max) == Newest(s + more, max)
  {
    if |s| > max {
      var cut := |s| - max;
      assert s + more == s[..cut] + (s[cut..] + more);
      DropHead(s[..cut], s[cut..] + more, max);
    }
  }

  lemma DropHead(head: seq<Int16>, tail: seq<Int16>, max: nat)
    requires |tail| >= max
    ensures Newest(head + tail, max) == Newest(tail, max)
  {
    var k := |tail| - max;
    assert (head + tail)[|head| + k..] == tail[k..];
  }

  function Silence(n: nat): (s: seq<Int16>)
    ensures |s| == n
  {
    seq(n, _ => 0)
  }

  lemma HeadAndTail(s: seq<Int16>, k: nat)
    requires k <= |s|
    ensures s[..k] + s[k..] == s
  {
  }

  lemma TailOnly(a: seq<Int16>, b: seq<Int16>, n: nat)
    requires |a| <= n <= |a| + |b|
    ensures (a + b)[n..] == b[n - |a|..]
  {
  }

  lemma HeadDropped(a: seq<Int16>, b: seq<Int16>, n: nat)
    requires n <= |a|
    ensures (a + b)[n..] == a[n..] + b
  {
  }

  // The queue is still a suffix of the stream when both have grown.
  lemma StreamSuffix(stream: seq<Int16>, gone: nat, queue: seq<Int16>, more: seq<Int16>)
    requires gone <= |stream| && queue == stream[gone..]
    ensures (stream + more)[gone..] == queue + more
  {
    HeadDropped(stream, more, gone);
  }

  class SampleFIFO {
    var buf: seq<Int16>
    const max: nat

    // Every sample pushed since the last reset, and how many of them left by each way.
    ghost var pushed: seq<Int16>
    ghost var consumed: nat
    ghost var dropped: nat

    // The queue is always the newest part of the stream, and nothing goes uncounted.
    ghost predicate Valid()
      reads this
    {
      && max >= 1 && |buf| <= max
      && consumed + dropped + |buf| == |pushed|
      && buf == pushed[consumed + dropped..]
    }

    constructor (capacity: int)
      ensures Valid() && buf == [] && pushed == [] && consumed == 0 && dropped == 0
      ensures max == if capacity < 1 then 1 else capacity
    {
      max := if capacity < 1 then 1 else capacity;
      buf, pushed, consumed, dropped := [], [], 0, 0;
    }

    method Reset()
      requires Valid()
      modifies this
      ensures Valid() && buf == [] && pushed == []
    {
      buf, pushed, consumed, dropped := [], [], 0, 0;
    }

    method Pop(n: int) returns (out: seq<Int16>)
      requires Valid()
      modifies this
      ensures Valid()
      ensures |out| == Max(0, Min(n, |old(buf)|))
      ensures out + buf == old(buf) && pushed == old(pushed)
      ensures consumed == old(consumed) + |out| && dropped == old(dropped)
    {
      if n <= 0 || |buf| == 0 {
        assert [] + buf == buf;
        return [];
      }
      var k := if n > |buf| then |buf| else n;
      SliceTwice(pushed, consumed + dropped, k);
      HeadAndTail(buf, k);
      out := buf[..k];
      buf := buf[k..];
      consumed := consumed + k;
    }

    method Push(samples: seq<Int16>) returns (lost: nat)
      requires Valid()
      modifies this
      ensures Valid()
      ensures buf == Newest(old(buf) + samples, max)
      ensures lost == |old(buf)| + |samples| - |buf|
      ensures pushed == old(pushed) + samples
      ensures consumed == old(consumed) && dropped == old(dropped) + lost
    {
      StreamSuffix(pushed, consumed + dropped, buf, samples);
      lost := Append(samples);
      pushed := pushed + samples;
      SliceTwice(pushed, consumed + dropped, lost);
      dropped := dropped + lost;
    }

    // The queue itself: the oldest samples make room.
    method Append(samples: seq<Int16>) returns (lost: nat)
      requires |buf| <= max && max >= 1
      modifies this`buf
      ensures lost == (if |old(buf)| + |samples| > max then |old(buf)| + |samples| - max else 0)
      ensures buf == (old(buf) + samples)[lost..] == Newest(old(buf) + samples, max)
    {
      lost := 0;
      if |samples| == 0 {
        return;
      }
      if |samples| >= max {
        lost := |buf| + |samples| - max;
        TailOnly(buf, samples, lost);
        buf := samples[|samples| - max..];
        return;
      }
      var overflow := |buf| + |samples| - max;
      if overflow > 0 {
        lost := overflow;
        HeadDropped(buf, samples, lost);
        buf := buf[overflow..];
      }
      buf := buf + samples;
    }
  }
}
