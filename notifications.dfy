/**
 * Dismissing a notification (src/components/Notifications.tsx:24): the close
 * button of the entry at `index` replaces the list by the list filtered on
 * position, keeping every element whose position differs from `index`.
 *
 * Where notifications come from (the scheduler hook) is not part of this model:
 * the list starts as whatever it is given.
 */
module Notifications {

  datatype Notification = Notification(id: string, message: string)

  /** `s.filter((_, i) => i !== index)` for the part of a list that starts at
      position `offset`. */
  function FilterOutPosition<T>(s: seq<T>, index: int, offset: int): (r: seq<T>)
    ensures offset <= index < offset + |s| ==> r == s[..index - offset] + s[index - offset + 1..]
    ensures !(offset <= index < offset + |s|) ==> r == s
    decreases |s|
  {
    if s == [] then []
    else (if offset == index then [] else [s[0]]) + FilterOutPosition(s[1..], index, offset + 1)
  }

  /** The list after closing the entry at `index`. */
  function Dismissed<T>(s: seq<T>, index: int): seq<T>
  {
    FilterOutPosition(s, index, 0)
  }

  /** The notifications on screen; `setNotifications` replaces the list. */
  class NotificationList {
    var notifications: seq<Notification>

    constructor (initial: seq<Notification>)
      ensures notifications == initial
    {
      notifications := initial;
    }

    /** The close button of the entry at `index`. */
    method Dismiss(index: int)
      modifies this
      ensures notifications == Dismissed(old(notifications), index)
    {
      notifications := Dismissed(notifications, index);
    }
  }

  // ---------------------------------------------------------------------------
  // Lemmas

  /** Closing an entry that is on screen shortens the list by one. */
  lemma DismissShortens<T>(s: seq<T>, index: int)
    requires 0 <= index < |s|
    ensures |Dismissed(s, index)| == |s| - 1
  {
  }

  /** Entries before the closed one keep their positions; entries after it move
      down by one, in the same order. */
  lemma DismissKeepsOrder<T>(s: seq<T>, index: int)
    requires 0 <= index < |s|
    ensures forall j :: 0 <= j < index ==> Dismissed(s, index)[j] == s[j]
    ensures forall j :: index < j < |s| ==> Dismissed(s, index)[j - 1] == s[j]
  {
  }

  /** Exactly the closed entry is dropped: the remaining entries together with it
      are the original entries, duplicates counted. */
  lemma DismissRemovesExactlyOne<T>(s: seq<T>, index: int)
    requires 0 <= index < |s|
    ensures multiset(Dismissed(s, index)) + multiset{s[index]} == multiset(s)
  {
    assert s == s[..index] + [s[index]] + s[index + 1..];
  }

  /** Closing a position that is not on screen changes nothing. */
  lemma DismissOutOfRange<T>(s: seq<T>, index: int)
    requires index < 0 || |s| <= index
    ensures Dismissed(s, index) == s
  {
  }
}
