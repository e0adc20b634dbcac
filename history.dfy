/** The chat message both voice-chat pages keep in memory, and the bounded copy of
    the conversation that they persist after every new message. */
module Messages {

  /** One chat entry. `id` is the page's `Date.now() + Math.random()` and `timestamp`
      the creation time; both are supplied by the caller, since clocks and random
      numbers are outside the model. `sender` is "user", "assistant" or "system". */
  datatype ChatMessage = ChatMessage(id: real, sender: string, text: string, timestamp: int, conversationId: string)

  /** `Array.prototype.slice(-n)` for a positive `n`: the last `n` elements, or all of
      them when there are fewer. */
  function Last<T>(s: seq<T>, n: nat): (r: seq<T>)
    requires n > 0
    ensures |r| == if |s| < n then |s| else n
    ensures forall k | 0 <= k < |r| :: r[k] == s[|s| - |r| + k]
  {
    if |s| <= n then s else s[|s| - n..]
  }

  /** The persisted copy after one more message is the previous persisted copy with
      that message added, trimmed again: keeping only the tail loses nothing that a
      later save would need. */
  lemma LastAppend<T>(s: seq<T>, x: T, n: nat)
    requires n > 0
    ensures Last(s + [x], n) == Last(Last(s, n) + [x], n)
    ensures Last(s + [x], n)[|Last(s + [x], n)| - 1] == x
  {
    var a, b := Last(s + [x], n), Last(Last(s, n) + [x], n);
    assert |a| == |b|;
    forall k | 0 <= k < |a| ensures a[k] == b[k] {
      if k == |a| - 1 {
        assert a[k] == (s + [x])[|s|];
      } else {
        assert a[k] == s[|s| - |a| + 1 + k];
      }
    }
  }

  /** Trimming twice is trimming once. */
  lemma LastIdempotent<T>(s: seq<T>, n: nat)
    requires n > 0
    ensures Last(Last(s, n), n) == Last(s, n)
  {
  }
}
