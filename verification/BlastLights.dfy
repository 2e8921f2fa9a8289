/** The brightest blasts of a scene, selected into the renderer's fixed light slots. */
module BlastLights {

  /** `place` and `tint` stand for the light's position and radius, and its colour. */
  datatype Blast = Blast(life: real, age: real, place: nat, tint: nat)

  /** A colour slot: the tint with the brightness in its fourth component. */
  datatype Light = Light(tint: nat, brightness: real)

  function Clamp(x: real): real { if x < 0.0 then 0.0 else if x > 1.0 then 1.0 else x }

  function Brightness(b: Blast, intensity: real): real
    requires b.life > 0.0
  {
    var inv := 1.0 - Clamp(b.age / b.life);
    inv * inv * inv * intensity
  }

  /** Alive, and still bright enough to see. */
  predicate Eligible(b: Blast, intensity: real) {
    b.life > 0.0 && Brightness(b, intensity) > 0.001
  }

  /** A blast starts at the full intensity, falls off with the cube of the life it has left, and
      is dark once that is over; at a thousandth or less it gets no light. */
  lemma BrightnessMeans(b: Blast, intensity: real)
    ensures b.life <= 0.0 ==> !Eligible(b, intensity)
    ensures b.life > 0.0 && b.age <= 0.0 ==> Brightness(b, intensity) == intensity
    ensures b.life > 0.0 && b.age >= b.life ==> Brightness(b, intensity) == 0.0
    ensures b.life > 0.0 && 0.0 <= b.age <= b.life ==>
              var left := (b.life - b.age) / b.life;
              0.0 <= left <= 1.0 && Brightness(b, intensity) == left * left * left * intensity
    ensures b.life > 0.0 ==> (Eligible(b, intensity) <==> Brightness(b, intensity) > 0.001)
  {
    if b.life > 0.0 {
      Shares(b.age, b.life);
      QuotientIs(b.life - b.age, b.life, 1.0 - b.age / b.life);
    }
  }

  lemma QuotientIs(x: real, y: real, q: real)
    requires y > 0.0 && q * y == x
    ensures x / y == q
  {
    var r := x / y;
    assert r * y == x;
    assert (r - q) * y == 0.0;
    SignOfProduct(r - q, y);
  }

  /** Where a number lies among the multiples of a positive one. */
  lemma Shares(x: real, y: real)
    requires y > 0.0
    ensures x <= 0.0 ==> x / y <= 0.0
    ensures x >= y ==> x / y >= 1.0
    ensures 0.0 <= x <= y ==> 0.0 <= x / y <= 1.0
  {
    var q := x / y;
    assert q * y == x;
    SignOfProduct(q, y);
    assert (q - 1.0) * y == x - y;
    SignOfProduct(q - 1.0, y);
  }

  lemma SignOfProduct(q: real, y: real)
    requires y > 0.0
    ensures q * y > 0.0 <==> q > 0.0
    ensures q * y < 0.0 <==> q < 0.0
  {
  }

  /** How many of the first `n` blasts are eligible. */
  function Count(blasts: seq<Blast>, intensity: real, n: nat): (r: nat)
    requires n <= |blasts|
    ensures r <= n
  {
    if n == 0 then 0 else Count(blasts, intensity, n - 1) + if Eligible(blasts[n - 1], intensity) then 1 else 0
  }

  /** Slot `s` holds the paired data of blast `who[s]`. */
  ghost predicate Paired(places: seq<nat>, lights: seq<Light>, blasts: seq<Blast>, intensity: real,
      who: seq<nat>, n: nat) {
    && |who| <= |places| && |who| <= |lights| && n <= |blasts|
    && forall s :: 0 <= s < |who| ==> (
         && who[s] < n && Eligible(blasts[who[s]], intensity)
         && places[s] == blasts[who[s]].place
         && lights[s] == Light(blasts[who[s]].tint, Brightness(blasts[who[s]], intensity)))
  }

  ghost predicate Distinct(who: seq<nat>) {
    forall s, t :: 0 <= s < t < |who| ==> who[s] != who[t]
  }

  /** No eligible blast left out is brighter than one kept. */
  ghost predicate TopK(blasts: seq<Blast>, intensity: real, who: seq<nat>, n: nat)
    requires n <= |blasts|
  {
    forall i, s :: 0 <= i < n && Eligible(blasts[i], intensity) && i !in who && 0 <= s < |who| && who[s] < |blasts|
      && Eligible(blasts[who[s]], intensity)
      ==> Brightness(blasts[i], intensity) <= Brightness(blasts[who[s]], intensity)
  }

  function Min(a: int, b: int): int { if a < b then a else b }

  /** The slots hold a top selection of the first `n` blasts: as many as there is room for, each
      a different blast, none of those left out brighter. */
  ghost predicate Selected(blasts: seq<Blast>, intensity: real, places: seq<nat>, lights: seq<Light>,
      who: seq<nat>, n: nat, room: nat) {
    && n <= |blasts| && |who| == Min(Count(blasts, intensity, n), room)
    && Distinct(who) && Paired(places, lights, blasts, intensity, who, n) && TopK(blasts, intensity, who, n)
    && (|who| < room ==> forall k :: 0 <= k < n && Eligible(blasts[k], intensity) ==> k in who)
  }

  lemma SkipKeeps(blasts: seq<Blast>, intensity: real, places: seq<nat>, lights: seq<Light>, who: seq<nat>,
      n: nat, room: nat)
    requires Selected(blasts, intensity, places, lights, who, n, room) && n < |blasts|
    requires !Eligible(blasts[n], intensity)
    ensures Selected(blasts, intensity, places, lights, who, n + 1, room)
  {
    hide Eligible, Brightness;
  }

  lemma AppendKeeps(blasts: seq<Blast>, intensity: real, places: seq<nat>, lights: seq<Light>, who: seq<nat>,
      n: nat, room: nat)
    requires Selected(blasts, intensity, places, lights, who, n, room) && n < |blasts| && Eligible(blasts[n], intensity)
    requires |who| < room <= |places| && room <= |lights|
    ensures Selected(blasts, intensity, places[|who| := blasts[n].place],
                     lights[|who| := Light(blasts[n].tint, Brightness(blasts[n], intensity))], who + [n], n + 1, room)
  {
    assert blasts[n].life > 0.0;
    hide Eligible, Brightness;
    assert forall k :: k in who + [n] <==> k in who || k == n;
  }

  lemma DimmerKeeps(blasts: seq<Blast>, intensity: real, places: seq<nat>, lights: seq<Light>, who: seq<nat>,
      n: nat, room: nat, d: nat)
    requires Selected(blasts, intensity, places, lights, who, n, room) && n < |blasts| && Eligible(blasts[n], intensity)
    requires |who| == room && d < room && forall s :: 0 <= s < room ==> lights[d].brightness <= lights[s].brightness
    requires Brightness(blasts[n], intensity) <= lights[d].brightness
    ensures Selected(blasts, intensity, places, lights, who, n + 1, room)
  {
    hide Eligible, Brightness;
  }

  lemma ReplaceKeeps(blasts: seq<Blast>, intensity: real, places: seq<nat>, lights: seq<Light>, who: seq<nat>,
      n: nat, room: nat, d: nat)
    requires Selected(blasts, intensity, places, lights, who, n, room) && n < |blasts| && Eligible(blasts[n], intensity)
    requires |who| == room && d < room && forall s :: 0 <= s < room ==> lights[d].brightness <= lights[s].brightness
    requires Brightness(blasts[n], intensity) > lights[d].brightness
    ensures Selected(blasts, intensity, places[d := blasts[n].place],
                     lights[d := Light(blasts[n].tint, Brightness(blasts[n], intensity))], who[d := n], n + 1, room)
  {
    assert forall k :: 0 <= k < |blasts| && Eligible(blasts[k], intensity) ==> blasts[k].life > 0.0;
    hide Eligible, Brightness;
    var who' := who[d := n];
    forall k, s | 0 <= k < n + 1 && Eligible(blasts[k], intensity) && k !in who' && 0 <= s < room
      ensures Brightness(blasts[k], intensity) <= Brightness(blasts[who'[s]], intensity)
    {
      assert k != n by { assert who'[d] == n; }
      assert lights[d].brightness == Brightness(blasts[who[d]], intensity);
      if k == who[d] {
        assert Brightness(blasts[k], intensity) <= lights[s].brightness;
      } else {
        assert k !in who by {
          assert forall t :: 0 <= t < room && t != d ==> who'[t] == who[t];
        }
        assert Brightness(blasts[k], intensity) <= Brightness(blasts[who[d]], intensity);
        assert Brightness(blasts[k], intensity) <= Brightness(blasts[who[s]], intensity);
      }
    }
  }

  /** `blasts` lists the scene's blasts in whatever order the view has; null arrays take no light. */
  method CollectBlastLights(blasts: seq<Blast>, places: array?<nat>, lights: array?<Light>, maxLights: int,
      intensity: real)
      returns (count: nat, ghost who: seq<nat>)
    requires places != null && lights != null ==> maxLights <= places.Length && maxLights <= lights.Length
    modifies places, lights
    ensures places == null || lights == null || maxLights <= 0 ==> count == 0
    ensures places != null && lights != null && maxLights > 0 ==>
              && count == |who| == Min(Count(blasts, intensity, |blasts|), maxLights)
              && Selected(blasts, intensity, places[..], lights[..], who, |blasts|, maxLights)
              && places[count..] == old(places[..])[count..] && lights[count..] == old(lights[..])[count..]
  {
    who := [];
    if places == null || lights == null || maxLights <= 0 { return 0, []; }
    hide Selected, Brightness;
    count := 0;
    NothingYet(blasts, intensity, places[..], lights[..], maxLights);
    var i := 0;
    while i < |blasts|
      invariant i <= |blasts| && |who| == count <= maxLights
      invariant Selected(blasts, intensity, places[..], lights[..], who, i, maxLights)
      invariant places[count..] == old(places[..])[count..] && lights[count..] == old(lights[..])[count..]
    {
      ghost var p, l, w := places[..], lights[..], who;
      if blasts[i].life > 0.0 {
        var brightness := Brightness(blasts[i], intensity);
        if brightness > 0.001 {
          if count < maxLights {
            AppendKeeps(blasts, intensity, p, l, w, i, maxLights);
            places[count] := blasts[i].place;
            lights[count] := Light(blasts[i].tint, brightness);
            assert places[..] == p[count := blasts[i].place];
            assert lights[..] == l[count := Light(blasts[i].tint, brightness)];
            who := who + [i];
            count := count + 1;
          } else {
            var dimmest := Dimmest(lights, maxLights);
            if brightness > lights[dimmest].brightness {
              ReplaceKeeps(blasts, intensity, p, l, w, i, maxLights, dimmest);
              places[dimmest] := blasts[i].place;
              lights[dimmest] := Light(blasts[i].tint, brightness);
              assert places[..] == p[dimmest := blasts[i].place];
              assert lights[..] == l[dimmest := Light(blasts[i].tint, brightness)];
              who := who[dimmest := i];
            } else {
              DimmerKeeps(blasts, intensity, p, l, w, i, maxLights, dimmest);
            }
          }
        } else {
          SkipKeeps(blasts, intensity, p, l, w, i, maxLights);
        }
      } else {
        SkipKeeps(blasts, intensity, p, l, w, i, maxLights);
      }
      i := i + 1;
    }
    SelectedCount(blasts, intensity, places[..], lights[..], who, maxLights);
  }

  lemma NothingYet(blasts: seq<Blast>, intensity: real, places: seq<nat>, lights: seq<Light>, room: nat)
    ensures Selected(blasts, intensity, places, lights, [], 0, room)
  {
  }

  lemma SelectedCount(blasts: seq<Blast>, intensity: real, places: seq<nat>, lights: seq<Light>, who: seq<nat>,
      room: nat)
    requires Selected(blasts, intensity, places, lights, who, |blasts|, room)
    ensures |who| == Min(Count(blasts, intensity, |blasts|), room)
  {
  }

  /** The first of the dimmest slots. */
  method Dimmest(lights: array<Light>, maxLights: int) returns (d: nat)
    requires 0 < maxLights <= lights.Length
    ensures d < maxLights && forall k :: 0 <= k < maxLights ==> lights[d].brightness <= lights[k].brightness
    ensures forall k :: 0 <= k < d ==> lights[d].brightness < lights[k].brightness
  {
    d := 0;
    var k := 1;
    while k < maxLights
      invariant 1 <= k <= maxLights && d < k
      invariant forall j :: 0 <= j < k ==> lights[d].brightness <= lights[j].brightness
      invariant forall j :: 0 <= j < d ==> lights[d].brightness < lights[j].brightness
    {
      if lights[k].brightness < lights[d].brightness { d := k; }
      k := k + 1;
    }
  }

  // ----- the view's order -----

  /** Any two top selections of the same blasts differ only in blasts of equal brightness, so
      the order of the view can decide nothing but ties. */
  lemma OrderOnlyBreaksTies(blasts: seq<Blast>, intensity: real, who: seq<nat>, other: seq<nat>, i: nat, k: nat)
    requires TopK(blasts, intensity, who, |blasts|) && TopK(blasts, intensity, other, |blasts|)
    requires forall s :: 0 <= s < |who| ==> who[s] < |blasts| && Eligible(blasts[who[s]], intensity)
    requires forall s :: 0 <= s < |other| ==> other[s] < |blasts| && Eligible(blasts[other[s]], intensity)
    requires i in who && i !in other && k in other && k !in who
    ensures Brightness(blasts[i], intensity) == Brightness(blasts[k], intensity)
  {
    hide Brightness;
  }
}
