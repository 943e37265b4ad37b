/** What survives between scenes: score, high score, floor, health, the
    hand of cards, and the event registry that lets one part of the game
    call listeners registered by another. */
module GameSession {
  import opened Cards

  /** A registered callback, identified by what it stands for. */
  datatype Listener = Listener(id: nat)

  /** The event that score changes announce. */
  const ScoreEvent: string := "Score"

  /** The score a completed floor is worth. */
  const FloorBonus: int := 25

  /** The health a new game starts with. */
  const StartingHealth: int := 5

  /** The registry after adding `listener` under `eventName`: appended to an
      existing event, or a new event holding just that listener. */
  function Registered(registry: map<string, seq<Listener>>, eventName: string, listener: Listener): (r: map<string, seq<Listener>>)
    ensures eventName in r
    ensures r[eventName] == (if eventName in registry then registry[eventName] else []) + [listener]
    ensures forall name :: name != eventName ==> (name in r <==> name in registry)
    ensures forall name :: name != eventName && name in registry ==> r[name] == registry[name]
  {
    if eventName in registry then registry[eventName := registry[eventName] + [listener]]
    else registry[eventName := [listener]]
  }

  /** The listeners an event invokes: none for a name never registered. */
  function Invoked(registry: map<string, seq<Listener>>, eventName: string): (calls: seq<Listener>)
    ensures eventName !in registry ==> calls == []
    ensures eventName in registry ==> calls == registry[eventName]
  {
    if eventName in registry then registry[eventName] else []
  }

  /** The score-keeping part of the session. */
  datatype Tally = Tally(score: int, highScore: int, floor: int)

  /** The tally after scoring `value`: the high score is raised to the new
      score when it is beaten. */
  function Scored(t: Tally, value: int): Tally
  {
    var score := t.score + value;
    Tally(score, if score > t.highScore then score else t.highScore, t.floor)
  }

  /** The tally after leaving a floor: a completed floor is worth the bonus
      and moves to the next floor; the high score is not looked at. */
  function FloorLeft(t: Tally, completed: bool): Tally
  {
    if completed then Tally(t.score + FloorBonus, t.highScore, t.floor + 1) else t
  }

  /** Everything the session keeps besides the carried-over health. */
  datatype Session = Session(score: int, floor: int, highScore: int, cards: seq<Card>, cardHandler: CardHand?,
                             eventDictionary: map<string, seq<Listener>>, playerDataSet: bool)

  /** The session fields of `d` other than its health, as a value. */
  function SessionOf(d: PlayerData): Session
    reads d
  {
    Session(d.score, d.floor, d.highScore, d.cards, d.cardHandler, d.eventDictionary, d.playerDataSet)
  }

  /** Registering a listener makes the next trigger of that event call it,
      last, after the listeners already there. */
  lemma RegisterThenTrigger(registry: map<string, seq<Listener>>, eventName: string, listener: Listener)
    ensures Invoked(Registered(registry, eventName, listener), eventName) ==
              Invoked(registry, eventName) + [listener]
  {
  }

  class PlayerData {
    var score: int
    var floor: int
    var playerHealth: int
    /** The stored "HighScore" preference. */
    var highScore: int
    /** The hand carried to the next floor. */
    var cards: seq<Card>
    /** The hand of the current scene, when one is registered. */
    var cardHandler: CardHand?
    var eventDictionary: map<string, seq<Listener>>
    /** Whether the `playerData` reference has been set; nothing ever sets it. */
    var playerDataSet: bool

    /** Score, high score and floor, as a value. */
    ghost function Scores(): Tally
      reads this
    {
      Tally(score, highScore, floor)
    }

    /** The fresh game state; the high score comes from storage. */
    constructor (highScore: int)
      ensures score == 0 && floor == 1 && playerHealth == StartingHealth
      ensures this.highScore == highScore && cards == [] && cardHandler == null
      ensures eventDictionary == map[] && !playerDataSet
    {
      score := 0;
      floor := 1;
      playerHealth := StartingHealth;
      this.highScore := highScore;
      cards := [];
      cardHandler := null;
      eventDictionary := map[];
      playerDataSet := false;
    }

    /** Adds to the score, announces it, and raises the high score when it
        is beaten. Returns the listeners the announcement called. */
    method IncreaseScore(value: int) returns (invoked: seq<Listener>)
      modifies this
      ensures Scores() == Scored(old(Scores()), value)
      ensures highScore >= score && highScore >= old(highScore)
      ensures invoked == Invoked(eventDictionary, ScoreEvent)
      ensures floor == old(floor) && playerHealth == old(playerHealth) && cards == old(cards)
      ensures eventDictionary == old(eventDictionary) && playerDataSet == old(playerDataSet)
      ensures cardHandler == old(cardHandler)
    {
      score := score + value;
      invoked := TriggerEvent(ScoreEvent);
      if score > highScore {
        highScore := score;
      }
    }

    /** Registers a listener for an event. */
    method StartListening(eventName: string, listener: Listener)
      modifies this
      ensures eventDictionary == Registered(old(eventDictionary), eventName, listener)
      ensures score == old(score) && floor == old(floor) && highScore == old(highScore)
      ensures playerHealth == old(playerHealth) && cards == old(cards) && playerDataSet == old(playerDataSet)
      ensures cardHandler == old(cardHandler)
    {
      if eventName in eventDictionary {
        eventDictionary := eventDictionary[eventName := eventDictionary[eventName] + [listener]];
      } else {
        eventDictionary := eventDictionary[eventName := [listener]];
      }
    }

    /** Unregisters a listener, behind a guard on the `playerData`
        reference. That reference is never set, so the guard always returns
        and the registry never changes. */
    method StopListening(eventName: string, listener: Listener)
      modifies this
      ensures !old(playerDataSet) ==> eventDictionary == old(eventDictionary)
      ensures old(playerDataSet) && eventName in old(eventDictionary) ==>
                eventDictionary == old(eventDictionary)[eventName := Unregistered(old(eventDictionary)[eventName], listener)]
      ensures old(playerDataSet) && eventName !in old(eventDictionary) ==> eventDictionary == old(eventDictionary)
      ensures score == old(score) && floor == old(floor) && highScore == old(highScore)
      ensures playerHealth == old(playerHealth) && cards == old(cards) && playerDataSet == old(playerDataSet)
      ensures cardHandler == old(cardHandler)
    {
      if !playerDataSet {
        return;
      }
      if eventName in eventDictionary {
        eventDictionary := eventDictionary[eventName := Unregistered(eventDictionary[eventName], listener)];
      }
    }

    /** Calls the event's listeners, if the event exists; the registry is
        left as it is. */
    method TriggerEvent(eventName: string) returns (invoked: seq<Listener>)
      ensures invoked == Invoked(eventDictionary, eventName)
    {
      if eventName in eventDictionary {
        invoked := eventDictionary[eventName];
      } else {
        invoked := [];
      }
    }

    /** Leaves the floor: a completed floor adds the bonus to the score and
        moves to the next floor; either way the current hand is carried over
        when there is one. The high score is not updated here. */
    method NextFloor(increaseScore: bool)
      modifies this
      ensures Scores() == FloorLeft(old(Scores()), increaseScore)
      ensures old(cardHandler) != null ==> cards == old(cardHandler.Cards())
      ensures old(cardHandler) == null ==> cards == old(cards)
      ensures highScore == old(highScore) && playerHealth == old(playerHealth)
      ensures eventDictionary == old(eventDictionary) && playerDataSet == old(playerDataSet)
      ensures cardHandler == old(cardHandler)
    {
      if increaseScore {
        score := score + FloorBonus;
      }
      if cardHandler != null {
        cards := cardHandler.Cards();
      }
      if increaseScore {
        floor := floor + 1;
      }
    }
  }

  /** A listener list without any occurrence of `listener`. */
  function Unregistered(listeners: seq<Listener>, listener: Listener): (r: seq<Listener>)
    ensures listener !in r
    ensures forall l :: l in r <==> l in listeners && l != listener
    ensures multiset(r) == multiset(listeners)[listener := 0]
  {
    if |listeners| == 0 then []
    else
      assert listeners == [listeners[0]] + listeners[1..];
      if listeners[0] == listener then Unregistered(listeners[1..], listener)
      else [listeners[0]] + Unregistered(listeners[1..], listener)
  }

  /** Unregistering works piece by piece, so the other listeners keep their
      order: unregistering from two lists put together is unregistering
      from each. */
  lemma {:induction false} UnregisteredConcat(a: seq<Listener>, b: seq<Listener>, listener: Listener)
    ensures Unregistered(a + b, listener) == Unregistered(a, listener) + Unregistered(b, listener)
    decreases |a|
  {
    if |a| == 0 {
      assert a + b == b;
    } else {
      assert (a + b)[1..] == a[1..] + b;
      UnregisteredConcat(a[1..], b, listener);
    }
  }

  /** Scoring always leaves the high score at least the score, and never
      lowers it. */
  lemma ScoredKeepsRecord(t: Tally, value: int)
    ensures Scored(t, value).score == t.score + value
    ensures Scored(t, value).highScore >= Scored(t, value).score
    ensures Scored(t, value).highScore >= t.highScore
    ensures Scored(t, value).floor == t.floor
  {
  }

  /** The floor bonus bypasses the high score: from a tally whose high score
      is beaten by less than the bonus, a completed floor leaves the score
      above the high score, where scoring the same amount would have raised
      the high score to it. */
  lemma FloorBonusBypassesHighScore(t: Tally)
    requires t.score <= t.highScore < t.score + FloorBonus
    ensures FloorLeft(t, true).score > FloorLeft(t, true).highScore
    ensures Scored(t, FloorBonus).highScore == Scored(t, FloorBonus).score == FloorLeft(t, true).score
  {
  }
}
