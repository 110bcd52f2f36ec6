/** Browser `localStorage`, as a map from key to stored value. Values are kept
    as the records they serialise; the JSON text itself is not modelled. */
module Storage {
  import opened Wrappers
  import opened Domain

  datatype StoredValue = QuizEntry(state: QuizState) | ChatEntry(messages: seq<ChatMessage>)

  /** The key of a lecture's quiz: `test_${lectureId}`. */
  function TestKey(lectureId: string): string { "test_" + lectureId }

  /** The key of a lecture's chat transcript: `chat_${lectureId}`. */
  function ChatKey(lectureId: string): string { "chat_" + lectureId }

  /** Different lectures never share a quiz key, and no quiz key is a chat key. */
  lemma KeysAreDistinct(a: string, b: string)
    ensures TestKey(a) == TestKey(b) ==> a == b
    ensures TestKey(a) != ChatKey(b)
  {
    assert TestKey(a)[0] != ChatKey(b)[0];
    if TestKey(a) == TestKey(b) {
      assert a == TestKey(a)[5..] && b == TestKey(b)[5..];
    }
  }

  class LocalStorage {
    var entries: map<string, StoredValue>

    constructor ()
      ensures entries == map[]
    {
      entries := map[];
    }

    /** `localStorage.getItem(key)`, null when absent. */
    function GetItem(key: string): Option<StoredValue>
      reads this
    {
      if key in entries then Some(entries[key]) else None
    }

    /** `localStorage.setItem(key, value)`: overwrites any earlier value. */
    method SetItem(key: string, value: StoredValue)
      modifies this
      ensures entries == old(entries)[key := value]
    {
      entries := entries[key := value];
    }

    /** `localStorage.removeItem(key)` */
    method RemoveItem(key: string)
      modifies this
      ensures entries == old(entries) - {key}
    {
      entries := entries - {key};
    }
  }
}
