/** The auto-clean registry of the bot's entry point: the in-memory settings
    table `autoCleanSettings` (channel id to setting) and the timer map
    `autoCleanTimers` (channel id to a `setInterval` handle), with the
    timer start/stop helpers, the restore run when the client is ready, and
    the `자동청소` (auto-clean) subcommands 설정 (set up), 해제 (remove) and
    목록 (list). */
module AutoClean {
  import opened Jobs

  const MsPerHour: int := 60 * 60 * 1000
  /** The range Discord enforces on the `간격` (interval) option. */
  const MinIntervalHours: int := 1
  const MaxIntervalHours: int := 168
  /** The longest delay Node.js timers honour (2^31 - 1 ms). */
  const MaxTimerDelayMs: int := 0x7FFF_FFFF

  /** One persisted `auto_clean` record. */
  datatype CleanSetting = CleanSetting(channelName: string, guildId: string, intervalHours: int, createdAt: string)

  /** The timer period for an interval given in hours. */
  function IntervalMs(hours: int): (ms: int)
    ensures ms % MsPerHour == 0 && ms / MsPerHour == hours
    ensures MinIntervalHours <= hours <= MaxIntervalHours ==>
              MsPerHour <= ms <= MaxIntervalHours * MsPerHour < MaxTimerDelayMs
  {
    hours * MsPerHour
  }

  /** 목록: the entries of one guild, as the `filter` on `guildId` keeps them. */
  function GuildEntries(settings: map<string, CleanSetting>, guildId: string): (entries: map<string, CleanSetting>)
    ensures entries.Keys <= settings.Keys
    ensures forall c :: c in settings ==> (c in entries <==> settings[c].guildId == guildId)
    ensures forall c :: c in entries ==> entries[c] == settings[c]
  {
    map c | c in settings && settings[c].guildId == guildId :: settings[c]
  }

  /** Listings of two different guilds never share a channel, and a channel
      appears in the listing of the guild its setting names. */
  lemma GuildEntriesPartition(settings: map<string, CleanSetting>, g1: string, g2: string, c: string)
    requires c in settings
    ensures g1 != g2 ==> !(c in GuildEntries(settings, g1) && c in GuildEntries(settings, g2))
    ensures c in GuildEntries(settings, settings[c].guildId)
  {
  }

  /** The timer periods restoring `keys` arms. */
  function Periods(settings: map<string, CleanSetting>, keys: set<string>): (m: map<string, int>)
    requires keys <= settings.Keys
    ensures m.Keys == keys
    ensures forall c :: c in m ==> m[c] == IntervalMs(settings[c].intervalHours)
  {
    map c | c in keys :: IntervalMs(settings[c].intervalHours)
  }

  lemma PeriodsStep(before: map<string, int>, settings: map<string, CleanSetting>, done: set<string>, c: string)
    requires done <= settings.Keys && c in settings
    ensures (before + Periods(settings, done))[c := IntervalMs(settings[c].intervalHours)]
         == before + Periods(settings, done + {c})
  {
  }

  /** The loop invariant of the startup restore: the channels in `done` are
      armed on top of what was armed before, and counted. */
  ghost predicate RestoreProgress(before: map<string, int>, settings: map<string, CleanSetting>,
                                  r: Registry<string, int>, todo: set<string>, done: set<string>, restored: nat)
  {
    && todo + done == settings.Keys && todo !! done
    && Consistent(r)
    && Live(r) == before + Periods(settings, done)
    && restored == |done|
  }

  lemma RestoreStep(before: map<string, int>, settings: map<string, CleanSetting>,
                    r: Registry<string, int>, todo: set<string>, done: set<string>, restored: nat, c: string)
    requires RestoreProgress(before, settings, r, todo, done, restored) && c in todo
    ensures RestoreProgress(before, settings, Arm(r, c, IntervalMs(settings[c].intervalHours)),
                            todo - {c}, done + {c}, restored + 1)
  {
    RestoreArm(before, settings, r, done, c);
    RestoreCount(settings.Keys, todo, done, restored, c);
  }

  lemma RestoreArm(before: map<string, int>, settings: map<string, CleanSetting>,
                   r: Registry<string, int>, done: set<string>, c: string)
    requires Consistent(r) && done <= settings.Keys && c in settings
    requires Live(r) == before + Periods(settings, done)
    ensures Consistent(Arm(r, c, IntervalMs(settings[c].intervalHours)))
    ensures Live(Arm(r, c, IntervalMs(settings[c].intervalHours))) == before + Periods(settings, done + {c})
  {
    ArmConsistent(r, c, IntervalMs(settings[c].intervalHours));
    PeriodsStep(before, settings, done, c);
  }

  lemma RestoreCount(keys: set<string>, todo: set<string>, done: set<string>, restored: nat, c: string)
    requires todo + done == keys && todo !! done && restored == |done| && c in todo
    ensures (todo - {c}) + (done + {c}) == keys && (todo - {c}) !! (done + {c})
    ensures restored + 1 == |done + {c}|
  {
    assert c !in done;
  }

  class AutoCleanBot {
    var settings: map<string, CleanSetting>
    /** `autoCleanTimers`; each handle carries its period in milliseconds. */
    var timers: Registry<string, int>

    ghost predicate Valid()
      reads this
    {
      Consistent(timers)
    }

    /** Every configured channel has a timer and every timer a configuration. */
    ghost predicate Synced()
      reads this
    {
      timers.index.Keys == settings.Keys
    }

    /** The process starts with the loaded settings and no timers. */
    constructor (persisted: map<string, CleanSetting>)
      ensures Valid() && settings == persisted && Live(timers) == map[]
    {
      settings := persisted;
      timers := Empty();
    }

    /** `startAutoCleanTimer`: clears the channel's interval if it has one,
        then stores a fresh one whose period is `intervalHours` hours. */
    method StartAutoCleanTimer(channelId: string, intervalHours: int)
      requires Valid()
      modifies this`timers
      ensures Valid()
      ensures timers == Arm(old(timers), channelId, IntervalMs(intervalHours))
      ensures Live(timers) == old(Live(timers))[channelId := IntervalMs(intervalHours)]
      ensures LiveHandles(timers, channelId) == {timers.index[channelId]}
      ensures channelId in old(timers.index) ==> !timers.pool[old(timers.index)[channelId]].live
    {
      ArmConsistent(timers, channelId, IntervalMs(intervalHours));
      var pool := timers.pool;
      if channelId in timers.index {
        pool := Cancel(pool, timers.index[channelId]);
      }
      var handle := Handle(channelId, IntervalMs(intervalHours), true);
      timers := Registry(timers.index[channelId := |pool|], pool + [handle]);
      OneLivePerKey(timers, channelId);
    }

    /** `stopAutoCleanTimer`: clears and forgets the channel's interval; does
        nothing when the channel has none. */
    method StopAutoCleanTimer(channelId: string)
      requires Valid()
      modifies this`timers
      ensures Valid()
      ensures timers == Disarm(old(timers), channelId)
      ensures Live(timers) == old(Live(timers)) - {channelId}
      ensures LiveHandles(timers, channelId) == {}
      ensures channelId !in old(timers.index) ==> timers == old(timers)
    {
      DisarmConsistent(timers, channelId);
      if channelId in timers.index {
        timers := Registry(timers.index - {channelId}, Cancel(timers.pool, timers.index[channelId]));
      }
      OneLivePerKey(timers, channelId);
    }

    /** Startup restore: one timer per persisted channel, whatever its
        contents; the logged count is the number of settings. */
    method RestoreOnReady() returns (restored: nat)
      requires Valid()
      modifies this`timers
      ensures Valid()
      ensures Live(timers) == old(Live(timers)) + Periods(settings, settings.Keys)
      ensures restored == |settings|
      ensures old(timers.index.Keys) <= settings.Keys ==> Synced()
    {
      var todo := settings.Keys;
      ghost var done: set<string> := {};
      restored := 0;
      while todo != {}
        invariant RestoreProgress(old(Live(timers)), settings, timers, todo, done, restored)
        decreases todo
      {
        var c :| c in todo;
        RestoreStep(old(Live(timers)), settings, timers, todo, done, restored, c);
        StartAutoCleanTimer(c, settings[c].intervalHours);
        todo := todo - {c};
        done := done + {c};
        restored := restored + 1;
      }
      LiveKeys(timers);
      LiveKeys(old(timers));
    }

    /** 설정: stores the channel's setting (replacing any previous one) and
        (re)starts its timer. Discord keeps the interval within 1..168
        (see `IntervalMs`). */
    method Configure(channelId: string, channelName: string, guildId: string, intervalHours: int, createdAt: string)
      requires Valid()
      modifies this
      ensures Valid()
      ensures settings == old(settings)[channelId := CleanSetting(channelName, guildId, intervalHours, createdAt)]
      ensures Live(timers) == old(Live(timers))[channelId := IntervalMs(intervalHours)]
      ensures LiveHandles(timers, channelId) == {timers.index[channelId]}
      ensures old(Synced()) ==> Synced()
    {
      settings := settings[channelId := CleanSetting(channelName, guildId, intervalHours, createdAt)];
      StartAutoCleanTimer(channelId, intervalHours);
    }

    /** 해제: a channel without a setting is reported and nothing changes;
        otherwise its timer is stopped and its setting deleted, and no other
        channel is touched. */
    method Unconfigure(channelId: string) returns (found: bool)
      requires Valid()
      modifies this
      ensures Valid()
      ensures found == (channelId in old(settings))
      ensures !found ==> settings == old(settings) && timers == old(timers)
      ensures found ==> settings == old(settings) - {channelId}
      ensures found ==> Live(timers) == old(Live(timers)) - {channelId}
      ensures LiveHandles(timers, channelId) == {} || !found
      ensures old(Synced()) ==> Synced()
    {
      if channelId !in settings {
        return false;
      }
      StopAutoCleanTimer(channelId);
      settings := settings - {channelId};
      found := true;
    }
  }
}
