/**
 * The chat message exchanged between two connections: an immutable pair
 * of a sender name and a content, with its wire form and its display form.
 */
module ConnectionMessages {
  import opened Wrappers
  import opened Text

  /** The record's two components. A value of this type never changes. */
  datatype ConnectionMessage = ConnectionMessage(senderName: string, content: string)
  {
    /** What the compact constructor guarantees of every message it lets through. */
    predicate Valid() {
      !IsBlank(senderName)
    }

    /** The wire form: the sender, a comma, then the content. */
    function ToRawString(): (r: string)
      ensures |r| == |senderName| + 1 + |content|
      ensures r[..|senderName|] == senderName
      ensures r[|senderName|] == ','
      ensures r[|senderName| + 1..] == content
    {
      senderName + "," + content
    }

    /** The display form: the sender, a colon and a space, then the content. */
    function ToString(): (r: string)
      ensures |r| == |senderName| + 2 + |content|
      ensures r[..|senderName|] == senderName
      ensures r[|senderName|..|senderName| + 2] == ": "
      ensures r[|senderName| + 2..] == content
    {
      senderName + ": " + content
    }
  }

  /**
   * The compact constructor. A null sender is a NullPointerException and a
   * blank one an IllegalArgumentException (both from `Validate.notBlank`,
   * which runs first); then a null content is a NullPointerException.
   * Nothing else is asked of the content.
   */
  function Create(senderName: Option<string>, content: Option<string>): (r: Result<ConnectionMessage, JavaException>)
    ensures r.Success? <==> senderName.Some? && !IsBlank(senderName.value) && content.Some?
    ensures r.Success? ==>
      r.value.Valid() && r.value.senderName == senderName.value && r.value.content == content.value
    ensures senderName.None? ==> r == Failure(NullPointerException)
    ensures senderName.Some? && IsBlank(senderName.value) ==> r == Failure(IllegalArgumentException)
    ensures senderName.Some? && !IsBlank(senderName.value) && content.None? ==> r == Failure(NullPointerException)
  {
    if senderName.None? then Failure(NullPointerException)
    else if IsBlank(senderName.value) then Failure(IllegalArgumentException)
    else if content.None? then Failure(NullPointerException)
    else Success(ConnectionMessage(senderName.value, content.value))
  }

  /** The empty sender is blank, so it is rejected whatever the content. */
  lemma EmptySenderRejected(content: Option<string>)
    ensures Create(Some(""), content) == Failure(IllegalArgumentException)
  {
    assert IsBlank("");
  }

  /**
   * The first comma of the wire form sits right after the sender exactly
   * when the sender has no comma of its own.
   */
  lemma RawStringFirstComma(m: ConnectionMessage)
    ensures IndexOf(m.ToRawString(), ',') == Some(|m.senderName|) <==> ',' !in m.senderName
  {
    var r := m.ToRawString();
    assert r == m.senderName + [','] + m.content;
    if ',' !in m.senderName {
      SplitAtFirstOfJoin(m.senderName, m.content, ',');
    } else {
      var i := IndexOf(r, ',').value;
      assert r[..|m.senderName|] == m.senderName;
      assert i < |m.senderName|;
    }
  }

  /**
   * Splitting the wire form at its first comma gives back the sender and
   * the content, commas in the content included, when the sender has no comma.
   */
  lemma RawStringSplits(m: ConnectionMessage)
    requires ',' !in m.senderName
    ensures SplitAtFirst(m.ToRawString(), ',') == Some((m.senderName, m.content))
  {
    assert m.ToRawString() == m.senderName + [','] + m.content;
    SplitAtFirstOfJoin(m.senderName, m.content, ',');
  }

  /** Among senders without a comma, the wire form determines the message. */
  lemma RawStringInjective(m: ConnectionMessage, n: ConnectionMessage)
    requires ',' !in m.senderName && ',' !in n.senderName
    requires m.ToRawString() == n.ToRawString()
    ensures m == n
  {
    RawStringSplits(m);
    RawStringSplits(n);
  }

  /** A comma in the sender makes two different messages share a wire form. */
  lemma RawStringAmbiguousWithCommaInSender()
    ensures ConnectionMessage("a,b", "c").ToRawString() == ConnectionMessage("a", "b,c").ToRawString()
    ensures ConnectionMessage("a,b", "c").Valid() && ConnectionMessage("a", "b,c").Valid()
  {
    assert "a,b"[0] == 'a' && "a"[0] == 'a';
  }

  /** The display form is the wire form with its separating comma replaced by ": ". */
  lemma DisplayFromRaw(m: ConnectionMessage)
    ensures m.ToString() == m.ToRawString()[..|m.senderName|] + ": " + m.ToRawString()[|m.senderName| + 1..]
  {
    var r := m.ToRawString();
    assert r[..|m.senderName|] == m.senderName;
    assert r[|m.senderName| + 1..] == m.content;
  }
}
