/** The swipe page's emoji effect list and its `spawnEmojis` helper: a burst
    appends `count` copies of a symbol, and a timer started with the burst
    later drops the first `count` entries of whatever the list then holds. */
module EmojiQueue {

  /** One `spawnEmojis(symbol, count)` call, remembered by its expiry timer. */
  datatype Burst = Burst(symbol: string, count: nat)

  /** `count` tokens, all showing `symbol`. */
  function Repeat(symbol: string, count: nat): (r: seq<string>)
    ensures |r| == count
    ensures forall i :: 0 <= i < count ==> r[i] == symbol
  {
    seq(count, _ => symbol)
  }

  /** The append half of `spawnEmojis`: the new tokens go after the existing
      ones, which keep their order. */
  function Spawn(q: seq<string>, symbol: string, count: nat): (r: seq<string>)
    ensures |r| == |q| + count
    ensures r[..|q|] == q
    ensures forall i :: |q| <= i < |r| ==> r[i] == symbol
  {
    q + Repeat(symbol, count)
  }

  /** The expiry half of `spawnEmojis` (`prev.slice(count)`): drops the first
      `count` tokens, or all of them when fewer are left, and keeps the rest in
      order. */
  function Expire(q: seq<string>, count: nat): (r: seq<string>)
    ensures |r| == |q| - Min(count, |q|)
    ensures forall i :: 0 <= i < |r| ==> r[i] == q[i + Min(count, |q|)]
  {
    if count <= |q| then q[count..] else []
  }

  function Min(a: nat, b: nat): nat
  {
    if a <= b then a else b
  }

  /** The tokens of a sequence of bursts, oldest burst first. */
  function Flatten(bursts: seq<Burst>): seq<string>
  {
    if |bursts| == 0 then []
    else Repeat(bursts[0].symbol, bursts[0].count) + Flatten(bursts[1..])
  }

  /** Spawning a burst onto the tokens of earlier bursts gives the tokens of
      all of them. */
  lemma {:induction false} SpawnFlatten(bursts: seq<Burst>, b: Burst)
    ensures Spawn(Flatten(bursts), b.symbol, b.count) == Flatten(bursts + [b])
  {
    if |bursts| > 0 {
      assert (bursts + [b])[1..] == bursts[1..] + [b];
      SpawnFlatten(bursts[1..], b);
    } else {
      assert Flatten([b]) == Repeat(b.symbol, b.count) + Flatten([]);
    }
  }

  /** Because every expiry timer has the same lifetime, the timers fire in
      spawn order, and each one removes exactly the tokens of its own burst. */
  lemma ExpireOldestBurst(bursts: seq<Burst>)
    requires |bursts| > 0
    ensures Expire(Flatten(bursts), bursts[0].count) == Flatten(bursts[1..])
  {
    var head := Repeat(bursts[0].symbol, bursts[0].count);
    assert Flatten(bursts) == head + Flatten(bursts[1..]);
    assert (head + Flatten(bursts[1..]))[|head|..] == Flatten(bursts[1..]);
  }

  /** The number of tokens shown is the sum of the pending bursts' counts. */
  function Total(bursts: seq<Burst>): nat
  {
    if |bursts| == 0 then 0 else bursts[0].count + Total(bursts[1..])
  }

  lemma {:induction false} FlattenLength(bursts: seq<Burst>)
    ensures |Flatten(bursts)| == Total(bursts)
  {
    if |bursts| > 0 {
      FlattenLength(bursts[1..]);
    }
  }
}
