/**
 * The fixed texts the chat assistant answers with, exactly as the template
 * literals and the string array of `generateAIResponse` in script.js spell
 * them: line breaks and indentation included.  The characters outside ASCII
 * are those the script file holds (its emoji were saved as UTF-8 read back
 * as Windows-1252), written here as escapes.  Each text is written as a
 * concatenation of pieces of at most ten characters, a form the verifier
 * handles much faster than one long literal.
 */
module ChatReplies {
  /** The document reply: any of "document", "word", "excel", "powerpoint". */
  const DocumentsReply: string :=
    "I can" + " help you " + "create pro" + "fessional " + "documents!" + " \U{F0}\U{178}\U{201C}\U{201E} Our " + "AI Documen" + "t Creator " + "supports:\n" +
    "        \n" +
    "        \U{E2}" + "\U{20AC}\U{A2} **Word " + "Documents*" + "*: Busines" + "s proposal" + "s, reports" + ", letters," + " and more\n" +
    "     " + "   \U{E2}\U{20AC}\U{A2} **E" + "xcel Sprea" + "dsheets**:" + " Budget tr" + "ackers, da" + "ta analysi" + "s, financi" + "al models\n" +
    " " + "       \U{E2}\U{20AC}\U{A2}" + " **PowerPo" + "int Presen" + "tations**:" + " Pitch dec" + "ks, traini" + "ng materia" + "ls, projec" + "t reports\n" +
    "        \n" +
    "     " + "   Simply " + "describe w" + "hat you ne" + "ed, and I'" + "ll generat" + "e a comple" + "te documen" + "t with pro" + "fessional " + "formatting" + ", relevant" + " content, " + "and downlo" + "adable fil" + "es. Would " + "you like t" + "o try crea" + "ting a doc" + "ument now?"

  /** The video-editing reply: "video" or "edit". */
  const VideoEditingReply: string :=
    "I " + "can help y" + "ou edit vi" + "deos with " + "AI-powered" + " tools! \U{F0}\U{178}" + "\U{17D}\U{AC} Our Vid" + "eo Editor " + "includes:\n" +
    "        \n" +
    "  " + "      \U{E2}\U{20AC}\U{A2} " + "**Smart Tr" + "imming**: " + "AI analyze" + "s your vid" + "eo for opt" + "imal cuts\n" +
    "    " + "    \U{E2}\U{20AC}\U{A2} **" + "Profession" + "al Effects" + "**: Filter" + "s, transit" + "ions, and " + "visual enh" + "ancements\n" +
    "     " + "   \U{E2}\U{20AC}\U{A2} **T" + "ext Overla" + "ys**: Dyna" + "mic titles" + ", captions" + ", and anim" + "ated text\n" +
    "        " + "\U{E2}\U{20AC}\U{A2} **Back" + "ground Mus" + "ic**: Roya" + "lty-free t" + "racks matc" + "hed to you" + "r content\n" +
    "    " + "    \U{E2}\U{20AC}\U{A2} **" + "Quality En" + "hancement*" + "*: Upscali" + "ng, stabil" + "ization, a" + "nd color c" + "orrection\n" +
    "     " + "   \U{E2}\U{20AC}\U{A2} **A" + "uto Subtit" + "les**: Acc" + "urate capt" + "ions with " + "speaker re" + "cognition\n" +
    "        \n" +
    "        Up" + "load your " + "video and " + "let our AI" + " transform" + " it into p" + "rofessiona" + "l content!"

  /** The greeting reply: "hello", "hi" or "hey". */
  const GreetingReply: string :=
    "H" + "ello! \U{F0}\U{178}\U{2018}\U{2039}" + " I'm Yara," + " your pers" + "onalized A" + "I assistan" + "t. I'm her" + "e to help " + "you with:\n" +
    "        \n" +
    "        \U{F0}" + "\U{178}\U{201D}\U{B9} **Docu" + "ment Creat" + "ion**: Gen" + "erate Word" + " docs, Exc" + "el sheets," + " and Power" + "Point pres" + "entations\n" +
    " " + "       \U{F0}\U{178}\U{201D}" + "\U{B9} **Video " + "Editing**:" + " Professio" + "nal video " + "editing wi" + "th AI-powe" + "red tools\n" +
    "       " + " \U{F0}\U{178}\U{201D}\U{B9} **Qu" + "estion Ans" + "wering**: " + "Get instan" + "t help on " + "any topic\n" +
    "    " + "    \U{F0}\U{178}\U{201D}\U{B9} *" + "*Task Assi" + "stance**: " + "Step-by-st" + "ep guidanc" + "e for your" + " projects\n" +
    "        \n" +
    "        " + "What would" + " you like " + "to accompl" + "ish today?" + " I'm ready" + " to help m" + "ake your w" + "ork easier" + " and more " + "efficient!"

  /** The help reply: "help" or "what can you do". */
  const HelpReply: string :=
    "I'm yo" + "ur all-in-" + "one AI ass" + "istant! He" + "re's how I" + " can help " + "you: \U{F0}\U{178}\U{161}\U{20AC}\n" +
    "        \n" +
    "     " + "   **\U{F0}\U{178}\U{201C}\U{201E} " + "Document C" + "reation**\n" +
    "        \U{E2}" + "\U{20AC}\U{A2} Generat" + "e professi" + "onal Word " + "documents," + " Excel spr" + "eadsheets," + " and Power" + "Point pres" + "entations\n" +
    "        \U{E2}\U{20AC}" + "\U{A2} Create b" + "usiness pr" + "oposals, f" + "inancial m" + "odels, and" + " training " + "materials\n" +
    "        \U{E2}" + "\U{20AC}\U{A2} Profess" + "ional form" + "atting and" + " downloada" + "ble files\n" +
    "        \n" +
    " " + "       **\U{F0}" + "\U{178}\U{17D}\U{AC} Video " + "Editing**\n" +
    "        \U{E2}" + "\U{20AC}\U{A2} AI-powe" + "red trimmi" + "ng, effect" + "s, and enh" + "ancements\n" +
    "  " + "      \U{E2}\U{20AC}\U{A2} " + "Add text o" + "verlays, m" + "usic, and " + "subtitles\n" +
    "        \U{E2}" + "\U{20AC}\U{A2} Quality" + " improveme" + "nt and pro" + "fessional " + "finishing\n" +
    "        \n" +
    "        **" + "\U{F0}\U{178}\U{2019}\U{AC} Intel" + "ligent Ass" + "istance**\n" +
    "  " + "      \U{E2}\U{20AC}\U{A2} " + "Answer que" + "stions on " + "any topic\n" +
    "  " + "      \U{E2}\U{20AC}\U{A2} " + "Provide st" + "ep-by-step" + " guidance\n" +
    " " + "       \U{E2}\U{20AC}\U{A2}" + " Help with" + " planning " + "and proble" + "m-solving\n" +
    "        \n" +
    "  " + "      **\U{F0}\U{178}" + "\U{152}\U{178} Availab" + "le 24/7**\n" +
    "  " + "      \U{E2}\U{20AC}\U{A2} " + "Instant re" + "sponses an" + "d support\n" +
    " " + "       \U{E2}\U{20AC}\U{A2}" + " Personali" + "zed recomm" + "endations\n" +
    "        " + "\U{E2}\U{20AC}\U{A2} Contin" + "uous learn" + "ing and im" + "provement\n" +
    "        \n" +
    "  " + "      What" + " specific " + "task would" + " you like " + "help with?"

  /** The pricing reply: "price", "cost" or "free". */
  const PricingReply: string :=
    "Great ques" + "tion about" + " pricing! " + "\U{F0}\U{178}\U{2019}\U{B0} Yara " + "AI Platfor" + "m offers:\n" +
    "        \n" +
    "       " + " **\U{F0}\U{178}\U{2020}\U{201C} Fr" + "ee Tier**\n" +
    "    " + "    \U{E2}\U{20AC}\U{A2} 5 " + "documents " + "per month\n" +
    "        \U{E2}\U{20AC}" + "\U{A2} Basic vi" + "deo editin" + "g (up to 5" + " minutes)\n" +
    "       " + " \U{E2}\U{20AC}\U{A2} Stand" + "ard AI cha" + "t support\n" +
    "  " + "      \U{E2}\U{20AC}\U{A2} " + "Community " + "templates\n" +
    "        \n" +
    "      " + "  **\U{E2}\U{AD} Pro" + " Plan - $1" + "9/month**\n" +
    "  " + "      \U{E2}\U{20AC}\U{A2} " + "Unlimited " + "document g" + "eneration\n" +
    "    " + "    \U{E2}\U{20AC}\U{A2} Ad" + "vanced vid" + "eo editing" + " (up to 60" + " minutes)\n" +
    "  " + "      \U{E2}\U{20AC}\U{A2} " + "Priority A" + "I support\n" +
    "  " + "      \U{E2}\U{20AC}\U{A2} " + "Premium te" + "mplates an" + "d effects\n" +
    "        \U{E2}" + "\U{20AC}\U{A2} Export " + "in multipl" + "e formats\n" +
    "        \n" +
    "    " + "    **\U{F0}\U{178}\U{A2} " + "Enterprise" + " - Custom " + "Pricing**\n" +
    "        \U{E2}\U{20AC}" + "\U{A2} Team col" + "laboration" + " features\n" +
    "        " + "\U{E2}\U{20AC}\U{A2} Custom" + " branding\n" +
    "   " + "     \U{E2}\U{20AC}\U{A2} A" + "PI access\n" +
    "        \U{E2}\U{20AC}" + "\U{A2} Dedicate" + "d support\n" +
    "        \n" +
    "     " + "   Start w" + "ith our fr" + "ee tier an" + "d upgrade " + "anytime! W" + "ould you l" + "ike to try" + " creating " + "your first" + " document?"

  /** The pool a reply is drawn from when no keyword matches. */
  const DefaultReplies: seq<string> := [
    "That's" + " a great q" + "uestion! I" + "'m here to" + " help you " + "find the b" + "est soluti" + "on. Could " + "you provid" + "e a bit mo" + "re detail " + "about what" + " you're lo" + "oking for?",
    "I und" + "erstand wh" + "at you're " + "asking abo" + "ut. Let me" + " provide y" + "ou with so" + "me helpful" + " informati" + "on and gui" + "dance on t" + "his topic.",
    "Excell" + "ent point!" + " Based on " + "my knowled" + "ge, I can " + "offer some" + " insights " + "that might" + " be useful" + " for your " + "situation.",
    "I'" + "m glad you" + " asked! Th" + "is is some" + "thing I ca" + "n definite" + "ly help yo" + "u with. Le" + "t me break" + " it down f" + "or you ste" + "p by step.",
    "Th" + "at's an in" + "teresting " + "question! " + "I have som" + "e ideas th" + "at could h" + "elp you ac" + "hieve what" + " you're lo" + "oking for.",
    "I can assi" + "st you wit" + "h that! Le" + "t me provi" + "de some pr" + "actical su" + "ggestions " + "and recomm" + "endations.",
    "Great ques" + "tion! I'm " + "here to he" + "lp you suc" + "ceed. Here" + "'s what I " + "recommend " + "based on y" + "our needs.",
    "I unders" + "tand your " + "request! A" + "s your AI " + "assistant," + " I can gui" + "de you thr" + "ough this " + "process ef" + "fectively."
  ]
}
