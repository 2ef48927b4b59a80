/** Which drafts of hosts, tunnels and command presets are accepted: the limits of every text and number,
    told character by character. */
module AcceptedDrafts {
  import opened Prelude
  import opened Strings
  import opened Profiles
  import opened Jumps

  /** Between `least` and `most` bytes long, with only characters that are allowed. */
  predicate Spelled(s: string, least: nat, most: nat, allowed: char -> bool) {
    |s| >= least && Utf8Len(s) <= most && forall i | 0 <= i < |s| :: allowed(s[i])
  }

  predicate InAlias(c: char) {
    'a' <= c <= 'z' || 'A' <= c <= 'Z' || '0' <= c <= '9' || c == '_' || c == '.' || c == '-'
  }

  predicate Solid(c: char) { !IsWhitespace(c) && !IsControl(c) }

  predicate SolidNoComma(c: char) { Solid(c) && c != ',' }

  predicate Readable(c: char) { !IsControl(c) }

  predicate NotNul(c: char) { c as int != 0 }

  /** What a host is called on a command line: it cannot be taken for an option. */
  predicate OnCommandLine(s: string, most: nat, allowed: char -> bool) {
    Spelled(s, 1, most, allowed) && s[0] != '-'
  }

  lemma AliasMeans(s: string)
    ensures ValidAlias(s) <==> Spelled(s, 1, 64, InAlias)
  {
    forall c ensures IsAliasChar(c) <==> InAlias(c) { }
  }

  lemma AtomMeans(s: string, most: nat)
    ensures ValidAtom(s, most) <==> OnCommandLine(s, most, Solid)
  {
  }

  lemma ForwardAtomMeans(s: string)
    ensures ValidForwardAtom(s) <==> OnCommandLine(s, 512, SolidNoComma)
  {
    AtomMeans(s, 512);
    if OnCommandLine(s, 512, SolidNoComma) {
      forall i | 0 <= i < |s| ensures Solid(s[i]) && s[i] != ',' { assert SolidNoComma(s[i]); }
    }
  }

  lemma ReadableMeans(s: string, most: nat)
    ensures Utf8Len(s) <= most && NoControl(s) <==> Spelled(s, 0, most, Readable)
  {
  }

  lemma NoNulMeans(s: string, most: nat)
    ensures Utf8Len(s) <= most && NoNul(s) <==> Spelled(s, 0, most, NotNul)
  {
  }

  /** A host draft is accepted exactly in this form. */
  lemma HostDraftMeans(d: HostDraft)
    ensures ValidHostDraft(d) <==>
      && Spelled(Trim(d.alias), 1, 64, InAlias)
      && OnCommandLine(Trim(d.hostname), 512, Solid) && OnCommandLine(Trim(d.username), 128, Solid)
      && d.port >= 1
      && (d.identityFile.Some? ==> Spelled(d.identityFile.value, 0, 32767, NotNul))
      && (d.auth == Some(PrivateKey) ==> !IsBlank(d.identityFile))
      && (!IsBlank(d.proxyJump) ==> OnCommandLine(Trim(d.proxyJump.value), 1024, Solid))
      && (d.workspace.Some? ==> Spelled(d.workspace.value, 0, 4096, NotNul))
      && |d.groups| <= 32
  {
    AliasMeans(Trim(d.alias));
    AtomMeans(Trim(d.hostname), 512);
    AtomMeans(Trim(d.username), 128);
    if d.identityFile.Some? { NoNulMeans(d.identityFile.value, 32767); }
    if d.proxyJump.Some? { AtomMeans(Trim(d.proxyJump.value), 1024); }
    if d.workspace.Some? { NoNulMeans(d.workspace.value, 4096); }
  }

  /** The advanced options of a host, as they come out, are within these bounds or the host is refused. */
  lemma AdvancedMeans(a: Advanced)
    ensures ValidAdvanced(a) <==>
      1 <= a.connectTimeout <= 300 && a.aliveInterval <= 3600 && 1 <= a.aliveCount <= 100
  {
  }

  /** A tunnel draft is accepted exactly in this form. */
  lemma TunnelDraftMeans(d: TunnelDraft)
    ensures ValidTunnelDraft(d) <==>
      && Spelled(Trim(d.name), 1, 128, Readable)
      && d.sourcePort >= 1 && d.targetPort >= 1
      && OnCommandLine(Trim(d.bindAddress), 512, SolidNoComma) && OnCommandLine(Trim(d.targetHost), 512, SolidNoComma)
      && (d.health.Some? && d.health.value.tcp ==>
            var h := d.health.value; 1 <= h.timeout <= 60 && h.timeout < h.interval <= 3600)
  {
    ReadableMeans(Trim(d.name), 128);
    ForwardAtomMeans(Trim(d.bindAddress));
    ForwardAtomMeans(Trim(d.targetHost));
  }

  /** A preset draft is accepted exactly in this form. */
  lemma CommandDraftMeans(d: CommandDraft)
    ensures ValidCommandDraft(d) <==>
      && Spelled(Trim(d.name), 1, 512, Readable)
      && Spelled(d.description, 0, 2048, NotNul) && Spelled(d.group, 0, 128, Readable)
      && Trim(d.command) != "" && Spelled(d.command, 0, 32768, NotNul)
      && (d.workingDirectory.Some? ==> Spelled(d.workingDirectory.value, 0, 4096, NotNul))
      && (d.confirmation.Some? ==> Spelled(d.confirmation.value, 0, 256, Readable))
  {
    ReadableMeans(Trim(d.name), 512);
    NoNulMeans(d.description, 2048);
    ReadableMeans(d.group, 128);
    NoNulMeans(d.command, 32768);
    if d.workingDirectory.Some? { NoNulMeans(d.workingDirectory.value, 4096); }
    if d.confirmation.Some? { ReadableMeans(d.confirmation.value, 256); }
  }
}
