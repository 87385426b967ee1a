/**
 * The Discord side of the bot: the fixed notification templates
 * (`embeds_created`) and the dispatch from a streamer tag to the message
 * that is pushed to the announcement channel (`message_sent`).
 *
 * A Discord embed is modelled as a plain record of the fields the bot sets;
 * the avatar URLs of the two Discord users, which the bot looks up through
 * the Discord client, are passed in as `Avatars`.
 */
module Notifier {

  import opened Wrappers

  /** One colour channel, as accepted by `discord.Colour.from_rgb`. */
  newtype ColourByte = x: int | 0 <= x < 256

  datatype Colour = Rgb(red: ColourByte, green: ColourByte, blue: ColourByte)

  datatype Footer = Footer(text: string, iconUrl: string)

  datatype Author = Author(name: string, iconUrl: string)

  datatype Field = Field(name: string, value: string, inline: bool)

  datatype Embed = Embed(
    title: string,
    description: string,
    colour: Colour,
    footer: Footer,
    imageUrl: string,
    author: Author,
    thumbnailUrl: string,
    field: Option<Field>)

  /** The `avatar_url` of the two Discord users whose avatars decorate the embeds. */
  datatype Avatars = Avatars(arthlight: string, dpsosiris: string)

  /** What the bot pushes to the channel: an embed or a plain text message. */
  datatype Message = EmbedMessage(embed: Embed) | TextMessage(text: string)

  const ArthlightTag: string := "arthlight"
  const DpsosirisTag: string := "dpsosiris"

  /** The two tags that have a template. */
  predicate KnownTag(streamer: string) {
    streamer == ArthlightTag || streamer == DpsosirisTag
  }

  const SharedFooter: Footer :=
    Footer("Validated by Bitstorm Corporations",
           "https://ak7.picdn.net/shutterstock/videos/33150397/thumb/1.jpg")

  /** The diagnostic text sent for a tag that has no template. */
  const FallbackText: string :=
    "\n              Something went wrong, check the logs Pegasus! If you see this and he "
    + "\n              is not currently online, please ping him and you will get a reward!"
    + "\n              "

  function ArthlightEmbed(avatar: string): Embed {
    Embed(
      "Twitch Notification!",
      "Arthlight is now live!",
      Rgb(66, 185, 245),
      SharedFooter,
      "https://i.kym-cdn.com/photos/images/original/001/164/653/8d2.gif",
      Author("Arthlight", avatar),
      "https://i.pinimg.com/originals/9e/8d/0d/9e8d0db83e84403c79309507bf7e3628.png",
      Some(Field("Swing by and join the party:",
                 "[twitch.tv/arthlight](https://twitch.tv/arthlight)",
                 false)))
  }

  function DpsosirisEmbed(avatar: string): Embed {
    Embed(
      "Come on in! But leave your weapons by the door...",
      "[twitch.tv/dpsOsiris](https://twitch.tv/dpsOsiris)",
      Rgb(173, 7, 7),
      SharedFooter,
      "https://66.media.tumblr.com/87d0c8ae14b9270700d13dbae8639773/tumblr_phl8xtwtaw1xye92vo1_400.gif",
      Author("dpsosiris", avatar),
      "https://cdn.discordapp.com/attachments/627097919303974934/634854575815393284/creecree.png",
      None)
  }

  /**
   * `embeds_created`: the template for a tag. For any other tag the
   * if/elif chain falls through and nothing (Python's None) is returned.
   */
  function EmbedsCreated(streamer: string, avatars: Avatars): (r: Option<Embed>)
    ensures r.Some? <==> KnownTag(streamer)
    ensures r.Some? ==> r.value.footer == SharedFooter
    ensures r.Some? ==> r.value.author.iconUrl ==
                        (if streamer == ArthlightTag then avatars.arthlight else avatars.dpsosiris)
    ensures r.Some? ==> (r.value.field.Some? <==> streamer == ArthlightTag)
  {
    if streamer == ArthlightTag then Some(ArthlightEmbed(avatars.arthlight))
    else if streamer == DpsosirisTag then Some(DpsosirisEmbed(avatars.dpsosiris))
    else None
  }

  /**
   * `message_sent` without the send itself: the message pushed to the
   * announcement channel for a tag.
   */
  function MessageSent(streamer: string, avatars: Avatars): (m: Message)
    ensures m.EmbedMessage? <==> KnownTag(streamer)
    ensures m.EmbedMessage? ==> EmbedsCreated(streamer, avatars) == Some(m.embed)
    ensures m.TextMessage? ==> m.text == FallbackText
  {
    if streamer == ArthlightTag then EmbedMessage(EmbedsCreated(ArthlightTag, avatars).value)
    else if streamer == DpsosirisTag then EmbedMessage(EmbedsCreated(DpsosirisTag, avatars).value)
    else TextMessage(FallbackText)
  }

  /**
   * The two templates are told apart by title, colour and author name,
   * share the footer, and only arthlight's carries the link field.
   */
  lemma TemplatesDiffer(avatars: Avatars)
    ensures MessageSent(ArthlightTag, avatars) == EmbedMessage(ArthlightEmbed(avatars.arthlight))
    ensures MessageSent(DpsosirisTag, avatars) == EmbedMessage(DpsosirisEmbed(avatars.dpsosiris))
    ensures ArthlightEmbed(avatars.arthlight).colour == Rgb(66, 185, 245)
    ensures DpsosirisEmbed(avatars.dpsosiris).colour == Rgb(173, 7, 7)
    ensures ArthlightEmbed(avatars.arthlight).title != DpsosirisEmbed(avatars.dpsosiris).title
    ensures ArthlightEmbed(avatars.arthlight).author.name == "Arthlight"
    ensures DpsosirisEmbed(avatars.dpsosiris).author.name == "dpsosiris"
    ensures ArthlightEmbed(avatars.arthlight).footer == DpsosirisEmbed(avatars.dpsosiris).footer
    ensures ArthlightEmbed(avatars.arthlight).field.Some?
    ensures DpsosirisEmbed(avatars.dpsosiris).field.None?
  {
    assert |ArthlightEmbed(avatars.arthlight).title| != |DpsosirisEmbed(avatars.dpsosiris).title|;
  }

  /** Any tag other than the two known ones gets the diagnostic text. */
  lemma UnknownTagFallsBack(streamer: string, avatars: Avatars)
    requires streamer != ArthlightTag && streamer != DpsosirisTag
    ensures MessageSent(streamer, avatars) == TextMessage(FallbackText)
    ensures EmbedsCreated(streamer, avatars) == None
  {
  }
}
