/** The notifications that the audio bus and the visual-effect bus carry
    (src/audio/audioBus.ts, src/fx/fxBus.ts), as one closed datatype. The
    source builds several names by interpolation (`god.boon.${boon}`,
    `entropy.tier.enter.${tier}`, `season.enter.${season}`, `ending.${type}`,
    `corruption.tag.${tag}`); here each family is a constructor with its value. */
module Events {
  import opened GameTypes

  datatype Event =
    | EntropyEnter(threshold: int)      // entropy.enter.<T>
    | EntropyExit(threshold: int)       // entropy.exit.<T>
    | EntropySeizure                    // entropy.seizure
    | TickFast                          // entropy.tick.fast
    | TickNormal                        // entropy.tick.normal
    | SeedFlag                          // story.flags.seed
    | AwakenFlag                        // story.flags.awaken
    | ChoiceOpen                        // ui.choice.open
    | CorruptionInject(text: string, tags: seq<string>)
    | CorruptionTag(tag: string)        // corruption.tag.<tag>
    | OmenTrigger                       // omen.trigger
    | SeedSpawn
    | SeedExpire
    | SeedClickViable
    | SeedClickRot
    | SeedFeed
    | SeedStarve
    | SeedMature
    | GodSpawn
    | GodBargainOpen
    | GodAwaken
    | BoonApplied(boon: Boon)           // god.boon.<boon>
    | PriceApplied(price: Price)        // god.price.<price>
    | TierEnter(tier: Tier)             // entropy.tier.enter.<tier>
    | TierExit(tier: Tier)              // entropy.tier.exit.<tier>
    | SeasonEnter(season: Season)       // season.enter.<season>
    | GameEnd(ending: EndingKind)       // ending.<type>
}
