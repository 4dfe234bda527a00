/** Suppression of repeated text messages (server.py).

  is_duplicate_text() remembers when a text was last accepted and prunes that memory
  on every call; a background sweep prunes it again, less often.  The theorem says
  what the answers are without mentioning any memory at all. */
module Dedup {
  import opened PyText

  const WINDOW := 15.0
  const SWEEP_AGE := 60.0

  function Key(sender: string, text: string, node: string): string {
    if Strip(node) != "" then Strip(sender) + "|" + Strip(node) + "|" + Strip(text)
    else Strip(sender) + "|" + Strip(text)
  }

  // Only entries at most `age` seconds old survive.
  function Pruned(seen: map<string, real>, now: real, age: real): map<string, real> {
    map key | key in seen && now - seen[key] <= age :: seen[key]
  }

  predicate Repeats(seen: map<string, real>, key: string, now: real) {
    key in seen && now - seen[key] < WINDOW
  }

  // A text message is its key, whether it is blank, and when it arrived.
  datatype Event = Text(key: string, blank: bool, now: real) | Sweep(now: real)

  function Arrival(sender: string, text: string, node: string, now: real): Event {
    Text(Key(sender, text, node), Strip(text) == "", now)
  }

  // What the code keeps, and whether it takes a text for a duplicate.
  function After(seen: map<string, real>, e: Event): map<string, real> {
    match e
    case Sweep(now) => Pruned(seen, now, SWEEP_AGE)
    case Text(key, blank, now) =>
      if blank then seen
      else
        var kept := Pruned(seen, now, WINDOW);
        if Repeats(kept, key, now) then kept else kept[key := now]
  }

  predicate Duplicate(seen: map<string, real>, e: Event)
    requires e.Text?
  {
    e.blank || Repeats(Pruned(seen, e.now, WINDOW), e.key, e.now)
  }

  class RecentTexts {
    var seen: map<string, real>

    constructor ()
      ensures seen == map[]
    {
      seen := map[];
    }

    method DropOlderThan(now: real, age: real)
      modifies this
      ensures seen == Pruned(old(seen), now, age)
    {
      var expired := set key | key in seen && now - seen[key] > age;
      seen := seen - expired;
    }

    method IsDuplicateText(sender: string, text: string, node: string, now: real) returns (duplicate: bool)
      modifies this
      ensures var e := Arrival(sender, text, node, now);
              duplicate == Duplicate(old(seen), e) && seen == After(old(seen), e)
    {
      var cleaned := Strip(text);
      if cleaned == "" {
        return true;
      }
      var key := Strip(sender) + "|" + cleaned;
      if Strip(node) != "" {
        key := Strip(sender) + "|" + Strip(node) + "|" + cleaned;
      }
      DropOlderThan(now, WINDOW);
      if key in seen && now - seen[key] < WINDOW {
        return true;
      }
      seen := seen[key := now];
      return false;
    }

    method CleanupPass(now: real)
      modifies this
      ensures seen == After(old(seen), Sweep(now))
    {
      DropOlderThan(now, SWEEP_AGE);
    }
  }

  // --------------------------------------------------------------------- traces

  function Seen(events: seq<Event>): map<string, real> {
    if events == [] then map[] else After(Seen(events[..|events| - 1]), events[|events| - 1])
  }

  predicate AcceptedAt(events: seq<Event>, i: nat)
    requires i < |events|
  {
    events[i].Text? && !Duplicate(Seen(events[..i]), events[i])
  }

  predicate Timed(events: seq<Event>) {
    forall i, j :: 0 <= i <= j < |events| ==> events[i].now <= events[j].now
  }

  // The reference: the last time each key was accepted, never forgotten.
  function LastAccepted(events: seq<Event>): map<string, real> {
    if events == [] then map[]
    else
      var n := |events| - 1;
      var earlier := LastAccepted(events[..n]);
      if AcceptedAt(events, n) then earlier[events[n].key := events[n].now] else earlier
  }

  // What pruning threw away is too old to matter at any later time.
  lemma {:induction false} PruningForgetsOnlyOld(events: seq<Event>, now: real)
    requires Timed(events) && forall i :: 0 <= i < |events| ==> events[i].now <= now
    ensures forall key :: key in Seen(events) ==>
              key in LastAccepted(events) && LastAccepted(events)[key] == Seen(events)[key]
    ensures forall key :: key in LastAccepted(events) && key !in Seen(events) ==>
              now - LastAccepted(events)[key] > WINDOW
  {
    if events != [] {
      var n := |events| - 1;
      assert events[..n + 1] == events;
      PruningForgetsOnlyOld(events[..n], events[n].now);
    }
  }

  // The pruned memory answers as the memory that never forgets.
  lemma PrunedAgreesWithReference(events: seq<Event>, i: nat)
    requires Timed(events) && i < |events| && events[i].Text? && !events[i].blank
    ensures Duplicate(Seen(events[..i]), events[i])
            <==> Repeats(LastAccepted(events[..i]), events[i].key, events[i].now)
  {
    PruningForgetsOnlyOld(events[..i], events[i].now);
  }

  ghost predicate AcceptedKey(events: seq<Event>, i: int, key: string) {
    0 <= i < |events| && AcceptedAt(events, i) && events[i].key == key
  }

  lemma {:induction false} ReferenceIsLatest(events: seq<Event>, n: nat, key: string)
    requires Timed(events) && n <= |events|
    ensures var ref := LastAccepted(events[..n]);
            && (key in ref ==> exists i :: i < n && AcceptedKey(events, i, key) && events[i].now == ref[key])
            && forall i :: i < n && AcceptedKey(events, i, key) ==> key in ref && events[i].now <= ref[key]
  {
    if n > 0 {
      ReferenceIsLatest(events, n - 1, key);
      assert events[..n][..n - 1] == events[..n - 1];
      var ref := LastAccepted(events[..n - 1]);
      if AcceptedKey(events, n - 1, key) {
        assert LastAccepted(events[..n])[key] == events[n - 1].now;
      } else if key in ref {
        var i :| i < n - 1 && AcceptedKey(events, i, key) && events[i].now == ref[key];
      }
    }
  }

  // A text is accepted if and only if it is not blank and no text with the same key
  // was accepted less than 15 s before.  So accepted repeats are 15 s apart, and a
  // suppressed repeat, which is not accepted, never extends the window.
  lemma AcceptedIff(events: seq<Event>, j: nat)
    requires Timed(events) && j < |events| && events[j].Text?
    ensures AcceptedAt(events, j) <==>
              !events[j].blank
              && forall i :: i < j && AcceptedKey(events, i, events[j].key) ==>
                   events[j].now - events[i].now >= WINDOW
  {
    if !events[j].blank {
      var key := events[j].key;
      PrunedAgreesWithReference(events, j);
      ReferenceIsLatest(events, j, key);
    }
  }

  // Texts are told apart by sender, node and text without their outer blanks: keys are
  // equal exactly when those are, as long as no sender and no node contains a bar.
  lemma KeysDifferIff(sender: string, text: string, node: string, sender': string, text': string, node': string)
    requires '|' !in Strip(sender) && '|' !in Strip(sender') && '|' !in Strip(node) && '|' !in Strip(node')
    requires (Strip(node) == "") == (Strip(node') == "")
    ensures Key(sender, text, node) == Key(sender', text', node')
            <==> Strip(sender) == Strip(sender') && Strip(text) == Strip(text') && Strip(node) == Strip(node')
  {
    if Key(sender, text, node) == Key(sender', text', node') {
      if Strip(node) == "" {
        BarSplits(Strip(sender), Strip(text), Strip(sender'), Strip(text'));
      } else {
        assert Key(sender, text, node) == Strip(sender) + "|" + (Strip(node) + "|" + Strip(text));
        assert Key(sender', text', node') == Strip(sender') + "|" + (Strip(node') + "|" + Strip(text'));
        BarSplits(Strip(sender), Strip(node) + "|" + Strip(text), Strip(sender'), Strip(node') + "|" + Strip(text'));
        BarSplits(Strip(node), Strip(text), Strip(node'), Strip(text'));
      }
    }
  }

  lemma BarSplits(a: string, b: string, a': string, b': string)
    requires '|' !in a && '|' !in a' && a + "|" + b == a' + "|" + b'
    ensures a == a' && b == b'
  {
    var s, s' := a + "|" + b, a' + "|" + b';
    IndexOfSkips(a, '|', b);
    IndexOfSkips(a', '|', b');
    assert s[..|a|] == a && s'[..|a|] == a' && s[|a| + 1..] == b && s'[|a| + 1..] == b';
  }

  // The bar itself is not escaped: from a node, a text can read as one from no node.
  lemma BarIsAmbiguous(sender: string, node: string, text: string)
    requires Stripped(sender) && Stripped(node) && node != "" && Stripped(text)
    requires Stripped(node + "|" + text)
    ensures Key(sender, text, node) == Key(sender, node + "|" + text, "")
  {
    StripStrips(sender);
    StripStrips(node);
    StripStrips(text);
    StripStrips(node + "|" + text);
    StripStrips("");
    assert sender + "|" + node + "|" + text == sender + "|" + (node + "|" + text);
  }

  // After a text that is not blank, nothing older than the window is remembered.
  lemma MemoryIsRecent(events: seq<Event>)
    requires events != [] && events[|events| - 1].Text? && !events[|events| - 1].blank
    ensures forall key :: key in Seen(events) ==> events[|events| - 1].now - Seen(events)[key] <= WINDOW
  {}
}
