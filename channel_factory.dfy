// NotificationChannelFactory: the registry of channels, a Map from the type
// string to the channel, filled with the three built-in channels on
// construction.
module ChannelFactory {
  import opened Prelude
  import opened Domain
  import opened Tables
  import opened Channels

  class NotificationChannelFactory {
    var channels: Table<Channel>

    /** Every channel is registered under its own `getType()`. */
    ghost predicate Valid()
      reads this
    {
      && channels.Valid()
      && forall k :: k in channels.data ==> channels.data[k].GetType() == k
    }

    /** All three delivery types have a channel. */
    ghost predicate Complete()
      reads this
    {
      forall t :: DeliveryTypeKey(t) in channels.data
    }

    /** The three built-in channels, each a new object with an empty log. */
    constructor ()
      ensures Valid() && Complete()
      ensures channels.order == ["in_app", "email", "sms"]
      ensures forall k :: k in channels.data ==> fresh(channels.data[k]) && channels.data[k].notifications == []
    {
      channels := Empty();
      new;
      var inApp, email, sms := RegisterBuiltIns();
      BuiltInRegistry(inApp, email, sms);
      BuiltInChannels(inApp, email, sms);
    }

    /** The constructor's body: a new channel of each type, registered in
        turn. */
    method RegisterBuiltIns() returns (inApp: Channel, email: Channel, sms: Channel)
      modifies this
      ensures fresh(inApp) && fresh(email) && fresh(sms)
      ensures inApp.kind == InApp && email.kind == Email && sms.kind == Sms
      ensures inApp.notifications == [] && email.notifications == [] && sms.notifications == []
      ensures channels == old(channels).Set("in_app", inApp).Set("email", email).Set("sms", sms)
    {
      inApp := new Channel(InApp);
      RegisterChannel(inApp);
      email := new Channel(Email);
      RegisterChannel(email);
      sms := new Channel(Sms);
      RegisterChannel(sms);
    }

    /** `registerChannel(channel)`: keyed by `getType()`, replacing an earlier
        channel of the same type in its place. */
    method RegisterChannel(channel: Channel)
      modifies this
      ensures channels == old(channels).Set(channel.GetType(), channel)
      ensures old(Valid()) ==> Valid()
      ensures old(Complete()) ==> Complete()
    {
      channels := channels.Set(channel.GetType(), channel);
    }

    /** `getChannel(type)`; a missing type is the thrown error. */
    function GetChannel(t: DeliveryType): (r: Result<Channel, string>)
      reads this
      ensures r.Success? <==> DeliveryTypeKey(t) in channels.data
      ensures r.Success? ==> r.value == channels.data[DeliveryTypeKey(t)]
      ensures r.Failure? ==> r.error == "No notification channel registered for type: " + DeliveryTypeKey(t)
      ensures Valid() && r.Success? ==> r.value.GetType() == DeliveryTypeKey(t) && r.value.kind == t
    {
      var key := DeliveryTypeKey(t);
      if key in channels.data then
        NamesInjective();
        Success(channels.data[key])
      else
        Failure("No notification channel registered for type: " + key)
    }

    /** The channel `getChannel(t)` resolves to, as a set of at most one. */
    function ChannelFor(t: DeliveryType): set<Channel>
      reads this
    {
      if DeliveryTypeKey(t) in channels.data then {channels.data[DeliveryTypeKey(t)]} else {}
    }

    /** `getAllChannels()`: one channel per registered type, in registration
        order. */
    function GetAllChannels(): (r: seq<Channel>)
      reads this
      requires channels.Valid()
      ensures |r| == |channels.order| == |channels.data|
      ensures forall i :: 0 <= i < |r| ==> r[i] == channels.data[channels.order[i]]
      ensures Valid() ==> forall i, j :: 0 <= i < j < |r| ==> r[i].GetType() != r[j].GetType()
    {
      SizeIsCardinality(channels);
      channels.Values()
    }
  }

  /** The table the constructor builds from the three built-in channels is
      valid, keyed by `getType()`, has every type and lists them in
      registration order. */
  lemma BuiltInRegistry(inApp: Channel, email: Channel, sms: Channel)
    requires inApp.kind == InApp && email.kind == Email && sms.kind == Sms
    ensures var t := Empty<Channel>().Set("in_app", inApp).Set("email", email).Set("sms", sms);
            && t.Valid()
            && t.order == ["in_app", "email", "sms"]
            && (forall k :: k in t.data ==> t.data[k].GetType() == k)
            && (forall d :: DeliveryTypeKey(d) in t.data)
  {
    var t := Empty<Channel>().Set("in_app", inApp).Set("email", email).Set("sms", sms);
    BuiltInLayout(inApp, email, sms);
    assert forall d :: DeliveryTypeKey(d) in {"in_app", "email", "sms"};
  }

  /** Every channel of the constructed table is one of the three built-in
      ones. */
  lemma BuiltInChannels(inApp: Channel, email: Channel, sms: Channel)
    ensures var t := Empty<Channel>().Set("in_app", inApp).Set("email", email).Set("sms", sms);
            forall k :: k in t.data ==> t.data[k] == inApp || t.data[k] == email || t.data[k] == sms
  {
    BuiltInLayout(inApp, email, sms);
  }

  /** The keys, the order and the values of the constructed table. */
  lemma BuiltInLayout(inApp: Channel, email: Channel, sms: Channel)
    ensures var t := Empty<Channel>().Set("in_app", inApp).Set("email", email).Set("sms", sms);
            && t.data == map["in_app" := inApp, "email" := email, "sms" := sms]
            && t.order == ["in_app", "email", "sms"]
  {
    var t1 := Empty<Channel>().Set("in_app", inApp);
    var t2 := t1.Set("email", email);
    assert "email" !in t1.data;
    assert "sms" !in t2.data;
  }

  /** A registry that has every type, as the constructed one does, resolves
      each type to a channel of that type, so the channel lookup of a delivery
      cannot fail. */
  lemma CompleteResolves(f: NotificationChannelFactory, t: DeliveryType)
    requires f.Valid() && f.Complete()
    ensures f.GetChannel(t).Success? && f.GetChannel(t).value.kind == t
  {
  }

  /** The registry after construction holds exactly three channels. */
  lemma ConstructedHasThree(f: NotificationChannelFactory)
    requires f.Valid() && f.channels.order == ["in_app", "email", "sms"]
    ensures |f.GetAllChannels()| == 3
    ensures f.Complete()
  {
    assert forall t :: DeliveryTypeKey(t) in f.channels.order;
  }
}
