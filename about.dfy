/**
 * The about section: a title, a vision paragraph and one card per team
 * member, each prop falling back to a built-in default when omitted.
 */
module About {
  import opened Base
  import opened Avatar

  datatype TeamMember = TeamMember(name: string, role: string, bio: string, image: string)

  /** The optional props; `id` is accepted and never used. */
  datatype AboutProps = AboutProps(
    id: string,
    title: Option<string>,
    vision: Option<string>,
    teamMembers: Option<seq<TeamMember>>)

  /** What one card shows, keyed by the member's position in the list. */
  datatype MemberCard = MemberCard(
    key: nat,
    imageSrc: string,
    imageAlt: string,
    fallback: string,
    heading: string,
    role: string,
    bio: string)

  datatype AboutView = AboutView(title: string, vision: string, cards: seq<MemberCard>)

  const DefaultTitle: string := "Meet Our Team"
  const DefaultVision: string :=
    "Our vision is to revolutionize the investment landscape by creating accessible, transparent financial tools that empower individuals to build wealth with confidence. We believe that financial freedom should be attainable for everyone, not just the privileged few."

  const Founder: TeamMember := TeamMember(
    "Alex Johnson",
    "Founder & CEO",
    "Former investment banker with 10+ years experience at Goldman Sachs. MBA from Harvard Business School.",
    "https://api.dicebear.com/7.x/avataaars/svg?seed=Alex")

  const Cto: TeamMember := TeamMember(
    "Sarah Chen",
    "CTO",
    "Ex-Google engineer with expertise in AI and machine learning. PhD in Computer Science from Stanford.",
    "https://api.dicebear.com/7.x/avataaars/svg?seed=Sarah")

  const ProductHead: TeamMember := TeamMember(
    "Michael Rodriguez",
    "Head of Product",
    "Previously led product teams at Stripe and Square. Passionate about creating intuitive financial products.",
    "https://api.dicebear.com/7.x/avataaars/svg?seed=Michael")

  /** The roster shown when the caller supplies none. */
  const DefaultTeam: seq<TeamMember> := [Founder, Cto, ProductHead]

  /** The card of the member at position `index`. */
  function Card(m: TeamMember, index: nat): MemberCard {
    MemberCard(index, m.image, m.name, Initials(m.name), m.name, m.role, m.bio)
  }

  /**
   * The section: omitted props take their defaults, supplied ones are used
   * verbatim; a supplied roster replaces the default one whole, and there
   * is one card per member, in the roster's order.
   */
  function RenderAbout(p: AboutProps): (v: AboutView)
    ensures p.title.None? ==> v.title == DefaultTitle
    ensures p.title.Some? ==> v.title == p.title.value
    ensures p.vision.None? ==> v.vision == DefaultVision
    ensures p.vision.Some? ==> v.vision == p.vision.value
    ensures var team := if p.teamMembers.Some? then p.teamMembers.value else DefaultTeam;
      && |v.cards| == |team|
      && forall i :: 0 <= i < |team| ==>
           && v.cards[i].key == i
           && v.cards[i].heading == team[i].name
           && v.cards[i].imageAlt == team[i].name
           && v.cards[i].imageSrc == team[i].image
           && v.cards[i].role == team[i].role
           && v.cards[i].bio == team[i].bio
           && v.cards[i].fallback == Initials(team[i].name)
  {
    var team := p.teamMembers.GetOr(DefaultTeam);
    AboutView(
      p.title.GetOr(DefaultTitle),
      p.vision.GetOr(DefaultVision),
      seq(|team|, i requires 0 <= i < |team| => Card(team[i], i)))
  }

  /** The initials of a two-word name. */
  lemma TwoWordInitials(first: string, last: string)
    requires first != [] && ' ' !in first
    requires last != [] && ' ' !in last
    ensures Initials(first + " " + last) == [first[0], last[0]]
  {
    var words := [first, last];
    assert Join(words, " ") == first + " " + last;
    InitialsOfWords(words);
  }

  /** Alex Johnson's fallback. */
  lemma DefaultInitialsAJ()
    ensures Initials("Alex Johnson") == "AJ"
  {
    TwoWordInitials("Alex", "Johnson");
    assert "Alex" + " " + "Johnson" == "Alex Johnson";
  }

  /** Sarah Chen's fallback. */
  lemma DefaultInitialsSC()
    ensures Initials("Sarah Chen") == "SC"
  {
    TwoWordInitials("Sarah", "Chen");
    assert "Sarah" + " " + "Chen" == "Sarah Chen";
  }

  /** Michael Rodriguez's fallback. */
  lemma DefaultInitialsMR()
    ensures Initials("Michael Rodriguez") == "MR"
  {
    TwoWordInitials("Michael", "Rodriguez");
    assert "Michael" + " " + "Rodriguez" == "Michael Rodriguez";
  }

  /**
   * Without a `teamMembers` prop the grid shows Alex Johnson, Sarah Chen and
   * Michael Rodriguez, in that order, with the fallbacks AJ, SC and MR.
   */
  lemma DefaultRoster(p: AboutProps)
    requires p.teamMembers.None?
    ensures var v := RenderAbout(p);
      && |v.cards| == 3
      && v.cards[0].heading == "Alex Johnson" && v.cards[0].fallback == "AJ"
      && v.cards[1].heading == "Sarah Chen" && v.cards[1].fallback == "SC"
      && v.cards[2].heading == "Michael Rodriguez" && v.cards[2].fallback == "MR"
  {
    assert DefaultTeam[0].name == "Alex Johnson" && DefaultTeam[1].name == "Sarah Chen";
    assert DefaultTeam[2].name == "Michael Rodriguez";
    DefaultInitialsAJ();
    DefaultInitialsSC();
    DefaultInitialsMR();
  }
}
