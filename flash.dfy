/**
 * The flash store of flash.go: message lists grouped by name, where reading
 * a group consumes it. Go's nil map is `None`.
 */
module FlashStore {
  import opened Wrappers

  datatype FlashMessage = FlashMessage(kind: string, message: string)

  type Groups = map<string, seq<FlashMessage>>

  /** The map a possibly-nil Go map reads as: a nil map reads like an empty one. */
  function AsMap(messages: Option<Groups>): Groups {
    if messages.Some? then messages.value else map[]
  }

  /** `Messages[group]`: the list of a group, empty when the group is absent or the map is nil. */
  function Group(messages: Option<Groups>, group: string): seq<FlashMessage> {
    var m := AsMap(messages);
    if group in m then m[group] else []
  }

  /** The store after `AddMessage(group, message)`. */
  function WithMessage(messages: Option<Groups>, group: string, message: FlashMessage): Groups {
    AsMap(messages)[group := Group(messages, group) + [message]]
  }

  /** The store after `GetMessages(group)`. */
  function WithoutGroup(messages: Option<Groups>, group: string): Groups {
    AsMap(messages) - {group}
  }

  /** What `HasMessages(group)` answers. */
  predicate Has(messages: Option<Groups>, group: string) {
    messages.Some? && |Group(messages, group)| > 0
  }

  /** Adding a message puts it last in its group and leaves every other group as it was. */
  lemma AddAppends(messages: Option<Groups>, group: string, message: FlashMessage, other: string)
    ensures Group(Some(WithMessage(messages, group, message)), group) == Group(messages, group) + [message]
    ensures other != group ==> Group(Some(WithMessage(messages, group, message)), other) == Group(messages, other)
  {
  }

  /** After adding to a group, the group has messages, and reading it returns a list ending in the new message. */
  lemma AddThenHasAndGet(messages: Option<Groups>, group: string, message: FlashMessage)
    ensures Has(Some(WithMessage(messages, group, message)), group)
    ensures var got := Group(Some(WithMessage(messages, group, message)), group);
      |got| > 0 && got[|got| - 1] == message
  {
  }

  /** Reading a group twice: the second read finds nothing, and reading leaves other groups alone. */
  lemma GetConsumes(messages: Option<Groups>, group: string, other: string)
    ensures Group(Some(WithoutGroup(messages, group)), group) == []
    ensures !Has(Some(WithoutGroup(messages, group)), group)
    ensures other != group ==> Group(Some(WithoutGroup(messages, group)), other) == Group(messages, other)
  {
  }

  /** On a nil map nothing is there, and `Has` is false for every group. */
  lemma NilHasNothing(group: string)
    ensures !Has(None, group) && Group(None, group) == []
  {
  }

  class Flash {
    var messages: Option<Groups>

    /** `&Flash{}`: a flash with a nil map. */
    constructor ()
      ensures messages == None
    {
      messages := None;
    }

    /** Append `message` to `group`, allocating the map when it is nil. */
    method AddMessage(group: string, message: FlashMessage)
      modifies this
      ensures messages == Some(WithMessage(old(messages), group, message))
    {
      if messages.None? {
        messages := Some(map[]);
      }
      var m := messages.value;
      var list := if group in m then m[group] else [];
      messages := Some(m[group := list + [message]]);
    }

    /** Return the messages of `group` and remove the group, allocating the map when it is nil. */
    method GetMessages(group: string) returns (list: seq<FlashMessage>)
      modifies this
      ensures list == Group(old(messages), group)
      ensures messages == Some(WithoutGroup(old(messages), group))
    {
      if messages.None? {
        messages := Some(map[]);
      }
      var m := messages.value;
      list := if group in m then m[group] else [];
      messages := Some(m - {group});
    }

    /** Whether `group` holds a message; false on a nil map. */
    method HasMessages(group: string) returns (has: bool)
      ensures has == Has(messages, group)
    {
      if messages.None? {
        return false;
      }
      var m := messages.value;
      has := group in m && |m[group]| > 0;
    }
  }

  /**
   * A message added to a fresh flash is reported, read back, and gone on the
   * next read.
   */
  method AddReadRead(group: string, message: FlashMessage) returns (has: bool, first: seq<FlashMessage>, second: seq<FlashMessage>)
    ensures has && first == [message] && second == []
  {
    var f := new Flash();
    f.AddMessage(group, message);
    has := f.HasMessages(group);
    first := f.GetMessages(group);
    second := f.GetMessages(group);
  }
}
