/** The text the detector hands to the notifier: its name followed by the presence
    label, and the reading of that text back on the receiving side. */
module PresenceMessage {

  datatype Option<T> = None | Some(value: T)

  const PresentLabel: string := " present"
  const NotPresentLabel: string := " notpresent"

  function Message(name: string, present: bool): (m: string)
    ensures |m| > |name| && m[..|name|] == name
  {
    name + (if present then PresentLabel else NotPresentLabel)
  }

  /** What a receiver that knows the device name reads from a message. */
  function ParseMessage(name: string, m: string): (r: Option<bool>)
    ensures r.Some? ==> m == Message(name, r.value)
  {
    if |m| < |name| || m[..|name|] != name then None
    else
      var suffix := m[|name|..];
      assert m == name + suffix;
      if suffix == PresentLabel then Some(true)
      else if suffix == NotPresentLabel then Some(false)
      else None
  }

  lemma ParseMessageRoundTrip(name: string, present: bool)
    ensures ParseMessage(name, Message(name, present)) == Some(present)
  {
  }

  /** The two messages of one device never coincide, so a receiver can always
      tell which state was reported. */
  lemma MessagesDistinguishPresence(name: string)
    ensures Message(name, true) != Message(name, false)
  {
  }
}
