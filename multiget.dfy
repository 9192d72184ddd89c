/** The aggregate error every GetMulti builds: one `key [k] error: …` segment
    per failing key, in key order, joined with "; ". */
module MultiGet {
  import GoStrings

  /** `fmt.Sprintf("key [%s] error: %s", key, text)`. */
  function Segment(key: string, text: string): (r: string)
    ensures GoStrings.Mentions(r, key)
    ensures GoStrings.Mentions(r, text)
  {
    var r := "key [" + key + "] error: " + text;
    assert key <= r[5..];
    assert text <= r[|r| - |text|..];
    r
  }

  /** `strings.Join(keysErr, "; ")`. */
  function Message(segments: seq<string>): (r: string)
    ensures segments == [] ==> r == ""
    ensures |segments| == 1 ==> r == segments[0]
    ensures |segments| > 1 ==> segments[0] + "; " <= r
    ensures forall i :: 0 <= i < |segments| ==> GoStrings.Mentions(r, segments[i])
  {
    GoStrings.JoinMentionsAll(segments, "; ");
    GoStrings.Join(segments, "; ")
  }

  /** The message names the key of each of its segments. */
  lemma MessageMentionsKey(segments: seq<string>, key: string, text: string)
    requires Segment(key, text) in segments
    ensures GoStrings.Mentions(Message(segments), key)
  {
    GoStrings.JoinMentionsMember(segments, "; ", Segment(key, text));
    GoStrings.MentionsTransitive(Message(segments), Segment(key, text), key);
  }

  /** The adapters' text for a key the server did not return. */
  const NotExist: string := "key not exist"

  /** The segments for the keys not in `present`, in key order. */
  function MissingSegments(keys: seq<string>, present: set<string>): (r: seq<string>)
    ensures |r| <= |keys|
    ensures r == [] <==> forall i :: 0 <= i < |keys| ==> keys[i] in present
  {
    if keys == [] then []
    else
      var k := keys[|keys| - 1];
      MissingSegments(keys[..|keys| - 1], present) + (if k in present then [] else [Segment(k, NotExist)])
  }

  /** Each missing key has its segment. */
  lemma {:induction false} MissingKeyHasSegment(keys: seq<string>, present: set<string>, i: nat)
    requires i < |keys| && keys[i] !in present
    ensures Segment(keys[i], NotExist) in MissingSegments(keys, present)
    decreases |keys|
  {
    if i < |keys| - 1 {
      assert keys[..|keys| - 1][i] == keys[i];
      MissingKeyHasSegment(keys[..|keys| - 1], present, i);
    }
  }

  /** The aggregate error names every missing key. */
  lemma MissingMessageMentionsKeys(keys: seq<string>, present: set<string>, i: nat)
    requires i < |keys| && keys[i] !in present
    ensures GoStrings.Mentions(Message(MissingSegments(keys, present)), keys[i])
  {
    MissingKeyHasSegment(keys, present, i);
    MessageMentionsKey(MissingSegments(keys, present), keys[i], NotExist);
  }
}
