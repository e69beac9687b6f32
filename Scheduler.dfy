/** The calendar notification scheduler: one daily job per user in the
    module-level `userSchedules` map, registered, cancelled and restored at
    start-up, and the `HH:mm` validator for notification times. A job is
    the recurrence rule it was given (hour and minute); the Asia/Seoul time
    zone and the callback it runs are not part of the model. */
module Scheduler {
  import opened Wrappers
  import opened Text
  import opened Jobs

  /** The hour and minute of a `RecurrenceRule`, as `time.split(':').map(Number)`
      destructures them; `minute` is absent (undefined) when `time` has no ':'. */
  datatype Rule = Rule(hour: JsNumber, minute: Option<JsNumber>)

  /** `const [hour, minute] = time.split(':').map(Number)`. */
  function ParseTime(time: string): Rule {
    var parts := Split(time, ':');
    Rule(ToNumber(parts[0]), if |parts| >= 2 then Some(ToNumber(parts[1])) else None)
  }

  /** The minute is absent exactly when the time holds no ':'. */
  lemma ParseTimeMinute(time: string)
    ensures ParseTime(time).minute.Some? <==> ':' in time
  {
    SplitCount(time, ':');
    if ':' in time {
      CountPositive(time, ':');
    } else {
      SplitOfPlain(time, ':');
    }
  }

  /** `/^\d{2}:\d{2}$/`: two ASCII digits, a colon, two ASCII digits. */
  predicate MatchesTimePattern(time: string) {
    |time| == 5 && IsDigit(time[0]) && IsDigit(time[1]) && time[2] == ':'
    && IsDigit(time[3]) && IsDigit(time[4])
  }

  /** `isValidTimeFormat`: the pattern, then the parsed hour in 0..23 and
      minute in 0..59. */
  function IsValidTimeFormat(time: string): (ok: bool)
    ensures ok ==> MatchesTimePattern(time)
  {
    if !MatchesTimePattern(time) then false
    else
      var rule := ParseTime(time);
      && rule.hour.Num? && rule.minute.Some? && rule.minute.value.Num?
      && 0 <= rule.hour.value <= 23 && 0 <= rule.minute.value.value <= 59
  }

  /** The canonical `HH:mm` spelling of an hour and minute. */
  function TimeString(hour: nat, minute: nat): string {
    Pad(hour, 2) + ":" + Pad(minute, 2)
  }

  /** A two-digit `HH:mm` spelling parses back to its hour and minute. */
  lemma TimeRoundTrip(hour: nat, minute: nat)
    requires hour < 100 && minute < 100
    ensures MatchesTimePattern(TimeString(hour, minute))
    ensures ParseTime(TimeString(hour, minute)) == Rule(Num(hour), Some(Num(minute)))
  {
    var a, b := Pad(hour, 2), Pad(minute, 2);
    PadDigits(hour, 2);
    PadDigits(minute, 2);
    assert ':' !in a && ':' !in b by {
      assert forall i :: 0 <= i < 2 ==> IsDigit(a[i]) && IsDigit(b[i]);
    }
    assert Join([a, b], ':') == TimeString(hour, minute) by {
      assert [a, b][1..] == [b];
    }
    SplitJoin([a, b], ':');
  }

  /** Splitting a string of the `HH:mm` shape gives its two digit pairs. */
  lemma SplitOfPattern(time: string)
    requires MatchesTimePattern(time)
    ensures Split(time, ':') == [time[..2], time[3..]]
  {
    var a, b := time[..2], time[3..];
    assert ':' !in a && ':' !in b by {
      assert forall i :: 0 <= i < 2 ==> IsDigit(a[i]) && IsDigit(b[i]);
    }
    assert Join([a, b], ':') == time by {
      assert [a, b][1..] == [b];
    }
    SplitJoin([a, b], ':');
  }

  /** The validator accepts exactly the zero-padded times of a day:
      `HH:mm` with hour 0..23 and minute 0..59, and nothing else. */
  lemma TimeFormatIff(time: string)
    ensures IsValidTimeFormat(time)
        <==> exists h: nat, m: nat :: h < 24 && m < 60 && time == TimeString(h, m)
  {
    if IsValidTimeFormat(time) {
      var h, m := ValidTimeSpelling(time);
    }
    if exists h: nat, m: nat :: h < 24 && m < 60 && time == TimeString(h, m) {
      var h: nat, m: nat :| h < 24 && m < 60 && time == TimeString(h, m);
      TimeRoundTrip(h, m);
    }
  }

  /** On the `HH:mm` shape the rule is the two digit pairs read as numbers. */
  lemma ParseTimeOfPattern(time: string)
    requires MatchesTimePattern(time)
    ensures ParseTime(time) == Rule(Num(DigitsValue(time[..2])), Some(Num(DigitsValue(time[3..]))))
  {
    SplitOfPattern(time);
    assert AllDigits(time[..2]) && AllDigits(time[3..]) by {
      assert forall i :: 0 <= i < 2 ==> IsDigit(time[..2][i]) && IsDigit(time[3..][i]);
    }
  }

  /** An accepted time is the canonical spelling of its hour and minute. */
  lemma ValidTimeSpelling(time: string) returns (h: nat, m: nat)
    requires IsValidTimeFormat(time)
    ensures h < 24 && m < 60 && time == TimeString(h, m)
  {
    SplitOfPattern(time);
    h, m := DigitsValue(time[..2]), DigitsValue(time[3..]);
    PadOfTwoDigits(time[..2]);
    PadOfTwoDigits(time[3..]);
    assert time == time[..2] + ":" + time[3..];
  }

  /** A missing leading zero is refused. */
  lemma RejectsShortHour()
    ensures !IsValidTimeFormat("9:00")
  {
  }

  /** On a two-digit spelling the validator is exactly the range check. */
  lemma ValidTimeString(hour: nat, minute: nat)
    requires hour < 100 && minute < 100
    ensures IsValidTimeFormat(TimeString(hour, minute)) <==> hour < 24 && minute < 60
  {
    TimeRoundTrip(hour, minute);
  }

  /** Hour 24 is refused. (The literal is bound to a parameter so that the
      recursive functions unroll only on a variable, not on the constant.) */
  lemma RejectsHour24(time: string)
    requires time == "24:00"
    ensures !IsValidTimeFormat(time)
  {
    SplitOfPattern(time);
    assert time[..2] == "24";
    assert DigitsValue("24") == 24 by { assert "24"[..1] == "2"; }
  }

  /** Minute 60 is refused (literal bound to a parameter, as above). */
  lemma RejectsMinute60(time: string)
    requires time == "12:60"
    ensures !IsValidTimeFormat(time)
  {
    SplitOfPattern(time);
    assert time[3..] == "60" && time[..2] == "12";
    assert DigitsValue("60") == 60 by { assert "60"[..1] == "6"; }
  }

  /** The last minute of the day is accepted (literal bound to a parameter,
      as above). */
  lemma AcceptsLastMinute(time: string)
    requires time == "23:59"
    ensures IsValidTimeFormat(time)
  {
    SplitOfPattern(time);
    assert time[..2] == "23" && time[3..] == "59";
    assert DigitsValue("23") == 23 by { assert "23"[..1] == "2"; }
    assert DigitsValue("59") == 59 by { assert "59"[..1] == "5"; }
  }

  /** One user's entry of the persisted calendar settings, as far as the
      restore reads it. */
  datatype CalendarSetting = CalendarSetting(enabled: bool, notificationTime: Option<string>)

  /** `settings.enabled && settings.notificationTime`: enabled and a
      non-empty time. */
  predicate Active(s: CalendarSetting) {
    s.enabled && s.notificationTime.Some? && s.notificationTime.value != ""
  }

  /** The users among `keys` whose settings are active. */
  function ActiveUsers(settings: map<string, CalendarSetting>, keys: set<string>): (users: set<string>)
    requires keys <= settings.Keys
    ensures users <= keys
    ensures forall u :: u in keys ==> (u in users <==> Active(settings[u]))
  {
    set u | u in keys && Active(settings[u])
  }

  /** The rules the restore registers for `users`. */
  function RestoredRules(settings: map<string, CalendarSetting>, users: set<string>): (m: map<string, Rule>)
    requires users <= settings.Keys
    ensures m.Keys == users
    ensures forall u :: u in m ==> m[u] == ParseTime(settings[u].notificationTime.GetOr(""))
  {
    map u | u in users :: ParseTime(settings[u].notificationTime.GetOr(""))
  }

  lemma RulesStep(before: map<string, Rule>, settings: map<string, CalendarSetting>, done: set<string>, u: string)
    requires done <= settings.Keys && u in settings && Active(settings[u])
    ensures ActiveUsers(settings, done + {u}) == ActiveUsers(settings, done) + {u}
    ensures (before + RestoredRules(settings, ActiveUsers(settings, done)))[u := ParseTime(settings[u].notificationTime.value)]
         == before + RestoredRules(settings, ActiveUsers(settings, done + {u}))
  {
    var users := ActiveUsers(settings, done);
    ActiveAdd(settings, done, u);
    RulesAdd(settings, users, u);
    OverrideUpdate(before, RestoredRules(settings, users), u, ParseTime(settings[u].notificationTime.value));
  }

  lemma RulesAdd(settings: map<string, CalendarSetting>, users: set<string>, u: string)
    requires users <= settings.Keys && u in settings
    ensures RestoredRules(settings, users + {u})
         == RestoredRules(settings, users)[u := ParseTime(settings[u].notificationTime.GetOr(""))]
  {
  }

  lemma OverrideUpdate<K, V>(b: map<K, V>, m: map<K, V>, k: K, v: V)
    ensures (b + m)[k := v] == b + m[k := v]
  {
  }

  /** The loop invariant of `restoreAllSchedules`: the active users among
      those visited are registered on top of what was there, and counted. */
  ghost predicate RestoreProgress(before: map<string, Rule>, settings: map<string, CalendarSetting>,
                                  r: Registry<string, Rule>, todo: set<string>, done: set<string>, restored: nat)
  {
    && todo + done == settings.Keys && todo !! done
    && Consistent(r)
    && Live(r) == before + RestoredRules(settings, ActiveUsers(settings, done))
    && restored == |ActiveUsers(settings, done)|
  }

  lemma RestoreArm(before: map<string, Rule>, settings: map<string, CalendarSetting>,
                   r: Registry<string, Rule>, done: set<string>, u: string)
    requires done <= settings.Keys && u in settings && Active(settings[u])
    requires Consistent(r) && Live(r) == before + RestoredRules(settings, ActiveUsers(settings, done))
    ensures var rule := ParseTime(settings[u].notificationTime.value);
      && Consistent(Arm(r, u, rule))
      && Live(Arm(r, u, rule)) == before + RestoredRules(settings, ActiveUsers(settings, done + {u}))
  {
    ArmConsistent(r, u, ParseTime(settings[u].notificationTime.value));
    RulesStep(before, settings, done, u);
  }

  /** One visit of an active user: registering it keeps the invariant. */
  lemma RestoreStepActive(before: map<string, Rule>, settings: map<string, CalendarSetting>,
                          r: Registry<string, Rule>, todo: set<string>, done: set<string>, restored: nat, u: string)
    requires RestoreProgress(before, settings, r, todo, done, restored) && u in todo
    requires Active(settings[u])
    ensures RestoreProgress(before, settings, Arm(r, u, ParseTime(settings[u].notificationTime.value)),
                            todo - {u}, done + {u}, restored + 1)
  {
    RestoreCount(settings, todo, done, restored, u);
    RestoreArm(before, settings, r, done, u);
  }

  /** One visit of an inactive user: skipping it keeps the invariant. */
  lemma RestoreStepInactive(before: map<string, Rule>, settings: map<string, CalendarSetting>,
                            r: Registry<string, Rule>, todo: set<string>, done: set<string>, restored: nat, u: string)
    requires RestoreProgress(before, settings, r, todo, done, restored) && u in todo
    requires !Active(settings[u])
    ensures RestoreProgress(before, settings, r, todo - {u}, done + {u}, restored)
  {
    RestoreCount(settings, todo, done, restored, u);
    ActiveSkip(settings, done, u);
  }

  lemma ActiveSkip(settings: map<string, CalendarSetting>, done: set<string>, u: string)
    requires done <= settings.Keys && u in settings && !Active(settings[u])
    ensures ActiveUsers(settings, done + {u}) == ActiveUsers(settings, done)
  {
    assert ActiveUsers(settings, done + {u}) == ActiveUsers(settings, done);
  }

  lemma ActiveAdd(settings: map<string, CalendarSetting>, done: set<string>, u: string)
    requires done <= settings.Keys && u in settings && Active(settings[u])
    ensures ActiveUsers(settings, done + {u}) == ActiveUsers(settings, done) + {u}
  {
    assert ActiveUsers(settings, done + {u}) == ActiveUsers(settings, done) + {u};
  }

  lemma RestoreCount(settings: map<string, CalendarSetting>, todo: set<string>, done: set<string>,
                     restored: nat, u: string)
    requires todo + done == settings.Keys && todo !! done && u in todo
    requires restored == |ActiveUsers(settings, done)|
    ensures (todo - {u}) + (done + {u}) == settings.Keys && (todo - {u}) !! (done + {u})
    ensures Active(settings[u]) ==> restored + 1 == |ActiveUsers(settings, done + {u})|
    ensures !Active(settings[u]) ==> restored == |ActiveUsers(settings, done + {u})|
  {
    if Active(settings[u]) {
      ActiveAdd(settings, done, u);
      assert u !in ActiveUsers(settings, done);
    } else {
      ActiveSkip(settings, done, u);
    }
  }

  class NotificationScheduler {
    /** `userSchedules`: user id to the `node-schedule` job of that user. */
    var userSchedules: Registry<string, Rule>

    ghost predicate Valid()
      reads this
    {
      Consistent(userSchedules)
    }

    /** The module is loaded with no job registered. */
    constructor ()
      ensures Valid() && Live(userSchedules) == map[]
    {
      userSchedules := Empty();
    }

    /** `getScheduleCount`: `userSchedules.size`. */
    function ScheduleCount(): (n: nat)
      reads this
      requires Valid()
      ensures n == |Live(userSchedules)| == LiveCount(userSchedules.pool)
    {
      LiveKeys(userSchedules);
      |userSchedules.index|
    }

    /** `scheduleNotification`: cancels the user's job if there is one,
        registers a daily job at the parsed hour and minute, and returns
        true. */
    method ScheduleNotification(userId: string, time: string) returns (ok: bool)
      requires Valid()
      modifies this
      ensures Valid() && ok
      ensures userSchedules == Arm(old(userSchedules), userId, ParseTime(time))
      ensures Live(userSchedules) == old(Live(userSchedules))[userId := ParseTime(time)]
      ensures LiveHandles(userSchedules, userId) == {userSchedules.index[userId]}
      ensures userId in old(userSchedules.index) ==> !userSchedules.pool[old(userSchedules.index)[userId]].live
      ensures ScheduleCount() == old(ScheduleCount()) + (if userId in old(Live(userSchedules)) then 0 else 1)
    {
      ArmConsistent(userSchedules, userId, ParseTime(time));
      LiveKeys(userSchedules);
      var pool := userSchedules.pool;
      if userId in userSchedules.index {
        pool := Cancel(pool, userSchedules.index[userId]);
      }
      var job := Handle(userId, ParseTime(time), true);
      userSchedules := Registry(userSchedules.index[userId := |pool|], pool + [job]);
      OneLivePerKey(userSchedules, userId);
      LiveKeys(userSchedules);
      ok := true;
    }

    /** `cancelNotification`: true and the job cancelled and forgotten when
        the user has one; false and nothing changed otherwise. */
    method CancelNotification(userId: string) returns (removed: bool)
      requires Valid()
      modifies this
      ensures Valid()
      ensures removed == (userId in old(Live(userSchedules)))
      ensures userSchedules == Disarm(old(userSchedules), userId)
      ensures Live(userSchedules) == old(Live(userSchedules)) - {userId}
      ensures LiveHandles(userSchedules, userId) == {}
      ensures !removed ==> userSchedules == old(userSchedules)
    {
      DisarmConsistent(userSchedules, userId);
      LiveKeys(userSchedules);
      if userId in userSchedules.index {
        userSchedules := Registry(userSchedules.index - {userId},
                                  Cancel(userSchedules.pool, userSchedules.index[userId]));
        removed := true;
      } else {
        removed := false;
      }
      OneLivePerKey(userSchedules, userId);
    }

    /** `restoreAllSchedules`: registers a job for every user whose setting
        is enabled and has a notification time, and returns how many. */
    method RestoreAllSchedules(calendarSettings: map<string, CalendarSetting>) returns (restored: nat)
      requires Valid()
      modifies this
      ensures Valid()
      ensures Live(userSchedules)
           == old(Live(userSchedules))
              + RestoredRules(calendarSettings, ActiveUsers(calendarSettings, calendarSettings.Keys))
      ensures restored == |ActiveUsers(calendarSettings, calendarSettings.Keys)|
    {
      var todo := calendarSettings.Keys;
      ghost var done: set<string> := {};
      restored := 0;
      while todo != {}
        invariant RestoreProgress(old(Live(userSchedules)), calendarSettings, userSchedules, todo, done, restored)
        decreases todo
      {
        var userId :| userId in todo;
        var settings := calendarSettings[userId];
        if settings.enabled && settings.notificationTime.Some? && settings.notificationTime.value != "" {
          RestoreStepActive(old(Live(userSchedules)), calendarSettings, userSchedules, todo, done, restored, userId);
          var _ := ScheduleNotification(userId, settings.notificationTime.value);
          restored := restored + 1;
        } else {
          RestoreStepInactive(old(Live(userSchedules)), calendarSettings, userSchedules, todo, done, restored, userId);
        }
        todo := todo - {userId};
        done := done + {userId};
      }
    }
  }

  /** Registering a user twice leaves one live job, with the second time. */
  lemma RescheduleKeepsOneJob(r: Registry<string, Rule>, userId: string, t1: string, t2: string)
    requires Consistent(r)
    ensures var r2 := Arm(Arm(r, userId, ParseTime(t1)), userId, ParseTime(t2));
      |LiveHandles(r2, userId)| == 1 && Live(r2)[userId] == ParseTime(t2)
      && |Live(r2)| == |Live(r)| + (if userId in Live(r) then 0 else 1)
  {
    ArmTwice(r, userId, ParseTime(t1), ParseTime(t2));
    var r1 := Arm(r, userId, ParseTime(t1));
    ArmConsistent(r, userId, ParseTime(t1));
    ArmConsistent(r1, userId, ParseTime(t2));
    LiveKeys(r);
    LiveKeys(Arm(r1, userId, ParseTime(t2)));
  }
}
