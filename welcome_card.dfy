/** src/app/components/dashboard/WelcomeCard.tsx: the greeting card's
    encouragement, chosen by the week's completion percentage. */
module WelcomeCard {
  const Excellent: string := "Excelente progresso! Continue assim!"
  const OnTrack: string := "Você está no caminho certo!"
  const GetStarted: string := "Vamos começar? Cada sessão conta!"

  /** `getMessage`: thresholds at 80 and 50, each band including its lower
      threshold. */
  function Message(progressPercent: real): string {
    if progressPercent >= 80.0 then Excellent
    else if progressPercent >= 50.0 then OnTrack
    else GetStarted
  }

  /** How encouraging a message is: 0 to get started, 2 for excellent. */
  function Level(message: string): nat {
    if message == Excellent then 2 else if message == OnTrack then 1 else 0
  }

  /** The three messages are different texts. */
  lemma MessagesDistinct()
    ensures Excellent != OnTrack && Excellent != GetStarted && OnTrack != GetStarted
  {
    assert Excellent[0] != OnTrack[0];
    assert Excellent[0] != GetStarted[0];
    assert OnTrack[1] != GetStarted[1];
  }

  /** Every percentage falls in exactly one band: the excellent message from
      80 on, the on-track message from 50 up to 80, the starting message
      below 50. */
  lemma Bands(progressPercent: real)
    ensures Message(progressPercent) == Excellent <==> progressPercent >= 80.0
    ensures Message(progressPercent) == OnTrack <==> 50.0 <= progressPercent < 80.0
    ensures Message(progressPercent) == GetStarted <==> progressPercent < 50.0
  {
    MessagesDistinct();
  }

  /** A higher percentage never gets a less encouraging message. */
  lemma MessageMonotone(p: real, q: real)
    requires p <= q
    ensures Level(Message(p)) <= Level(Message(q))
  {
    MessagesDistinct();
  }
}
